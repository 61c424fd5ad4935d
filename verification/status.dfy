/** Life cycle of a cache item (fileitem::FiStatus). The source compares states by position. */
module ItemStatus {
  datatype Status = Fresh | Inited | DlPending | DlGotHead | DlReceiving | Complete | DlError | DlStop

  function Order(s: Status): nat {
    match s
    case Fresh => 0 case Inited => 1 case DlPending => 2 case DlGotHead => 3
    case DlReceiving => 4 case Complete => 5 case DlError => 6 case DlStop => 7
  }
}

/** What an HTTP status code means (tRemoteStatus in src/httpdate.h). */
module RemoteStatus {
  predicate IsRedirect(code: int) { code in {301, 302, 303, 307, 308} }
}
