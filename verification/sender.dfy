/** job::SendData and job::CookResponseHeader (src/job.cc): the client side of the cache. A job
    hands out an item that may still be growing, whole, as a byte range or re-chunked. */
module Sender {
  import opened Text
  import opened HeaderParser
  import opened ItemStatus
  import opened RemoteStatus

  datatype Activity =
    | NotStarted | SendingData | SendingChunkHeader | SendingChunkData
    | Finished | DiscoAsap | SendBufNotFitem

  datatype KeepAlive = Close | Keep | Unspecified

  datatype Result = RDone | RAgain | RDiscon

  /** What a client job reads of its cache item under the item's lock. */
  datatype Item = Item(status: Status, size: int, contLen: int, code: int, msg: string,
                       date: string, origin: string, contentType: string)

  /** The request, and the texts that come from elsewhere: the clock, the product name, the
      generated error pages, and the verdict of the If-Modified-Since comparison. */
  datatype Request = Request(http11: bool, headOnly: bool, keepAlive: KeepAlive,
                             now: string, product: string,
                             notModified: Item -> bool, page: (string, bool) -> string)

  /** What the outside world does in one call: the socket's answer to a send, the item as seen
      when the wait for it ended (None is a timeout), opening its file, sending from it, and the
      item's response status at the end of the call. */
  datatype Net = Sent(n: nat) | WouldBlock | Broken
  datatype Io = Io(net: Net, view: Option<Item>, fdValid: bool, file: Net, code: int, msg: string)

  /** The job's fields; below, what an observer of the socket sees. `wire` is everything sent,
      `handed` the part that came from the item's file, `promised` the length announced for it,
      `ok` that the job reported a clean end. */
  datatype Job = Job(activity: Activity, sendbuf: string, from: int, to: int, sendPos: nat,
                     chunkEnd: nat, allData: nat,
                     wire: string, handed: string, promised: int, ok: bool)

  function NewJob(from: int, to: int): Job {
    Job(NotStarted, "", from, to, 0, 0, 0, "", "", 0, false)
  }

  // ---------------------------------------------------------------- the response head

  function IntText(v: int): string { if v < 0 then "-" + Dec(-v) else Dec(v) }

  function MetaFields(req: Request): seq<(string, string)> {
    (match req.keepAlive
     case Keep => [("Connection", "Keep-Alive")]
     case Close => [("Connection", "close")]
     case Unspecified => [])
    + [("Date", req.now), ("Server", req.product)]
  }

  function Optional(name: string, value: string): seq<(string, string)> {
    if value == "" then [] else [(name, value)]
  }

  function Proto(req: Request): char { if req.http11 then '1' else '0' }

  predicate MustNotHaveBody(code: int) { code == 304 || code == 204 || 100 <= code < 200 }

  function StatusLine(req: Request, code: int, msg: string): string {
    "HTTP/1." + [Proto(req)] + " " + IntText(code) + " " + msg + CRLF
  }

  predicate GoesChunked(j: Job, v: Item) {
    v.contLen < 0 && v.status.DlReceiving? && !(j.to > 0 && v.size >= j.to)
  }

  predicate Unsatisfiable(j: Job, v: Item) {
    v.contLen >= 0 && (j.from >= v.contLen || j.to + 1 > v.contLen)
  }

  predicate ServesRange(j: Job, v: Item) {
    j.from >= 0 && v.size > j.from && v.contLen > 0
  }

  function ChunkedFields(req: Request, v: Item): seq<(string, string)> {
    [("Content-Type", v.contentType)] + Optional("Last-Modified", v.date)
    + [("Transfer-Encoding", "chunked")] + Optional("X-Original-Source", v.origin) + MetaFields(req)
  }

  function RangeFields(req: Request, v: Item, from: int, to: int, length: int): seq<(string, string)> {
    var last := if to > 0 then to else v.contLen - 1;
    [("Content-Type", v.contentType)] + Optional("Last-Modified", v.date)
    + [("Content-Range", "bytes " + IntText(from) + "-" + IntText(last) + "/" + IntText(v.contLen)),
       ("Content-Length", IntText(length))]
    + Optional("X-Original-Source", v.origin) + MetaFields(req)
  }

  function FullFields(req: Request, v: Item): seq<(string, string)> {
    [("Content-Type", v.contentType)] + Optional("Last-Modified", v.date)
    + [("Content-Length", IntText(v.contLen))]
    + Optional("X-Original-Source", v.origin) + MetaFields(req)
  }

  function Quick(req: Request, j: Job, msg: string, nobody: bool): Job {
    j.(sendbuf := req.page(msg, nobody), activity := SendBufNotFitem)
  }

  /** CookResponseHeader. */
  function Cook(req: Request, j: Job, v: Item): Job {
    if IsRedirect(v.code) || MustNotHaveBody(v.code) then
      j.(activity := SendBufNotFitem,
         sendbuf := StatusLine(req, v.code, v.msg)
           + PrintFields((if IsRedirect(v.code) then [("Location", v.origin)] else []) + MetaFields(req)))
    else if v.code != 200 then Quick(req, j, IntText(v.code) + " " + v.msg, false)
    else if req.notModified(v) then Quick(req, j, "304 Not Modified", true)
    else if GoesChunked(j, v) then
      j.(activity := SendingChunkHeader, to := -1, from := 0,
         sendbuf := StatusLine(req, v.code, v.msg) + PrintFields(ChunkedFields(req, v)))
    else if Unsatisfiable(j, v) then Quick(req, j, "416 Requested Range Not Satisfiable", false)
    else if ServesRange(j, v) then
      var length := if j.to < 0 then v.contLen - j.from else j.to + 1 - j.from;
      j.(activity := SendingData, sendPos := j.from, promised := length,
         sendbuf := StatusLine(req, 206, "Partial Content")
           + PrintFields(RangeFields(req, v, j.from, j.to, length)))
    else
      j.(activity := SendingData, to := -1, from := 0, promised := v.contLen,
         sendbuf := StatusLine(req, 200, "OK") + PrintFields(FullFields(req, v)))
  }

  // ---------------------------------------------------------------- one call of SendData

  /** When AwaitSendableState stops waiting without a timeout. */
  predicate Awaited(req: Request, j: Job, v: Item) {
    Order(v.status) >= 5 || v.size > j.sendPos || (req.headOnly && Order(v.status) >= 3)
  }

  /** What may come back from waiting for an item whose file will hold `body` in the end. */
  predicate PossibleView(req: Request, body: string, j: Job, v: Item) {
    Awaited(req, j, v) && v.size <= |body| && (v.status.Complete? ==> v.size == |body|)
  }

  predicate PossibleIo(req: Request, body: string, j: Job, io: Io) {
    io.view.Some? ==> PossibleView(req, body, j, io.view.value)
  }

  predicate WellFormed(body: string, j: Job) {
    j.activity.SendingChunkData? ==> j.sendPos <= j.chunkEnd <= |body|
  }

  function CleanEnd(req: Request, j: Job): (Job, Result) {
    if req.keepAlive.Keep? || (req.keepAlive.Unspecified? && req.http11)
    then (j.(activity := Finished, ok := true), RDone)
    else (j.(activity := DiscoAsap, ok := true), RDiscon)
  }

  function Disconnect(j: Job): (Job, Result) { (j.(activity := DiscoAsap), RDiscon) }

  function SuddenError(req: Request, j: Job, io: Io): (Job, Result) {
    if j.allData != 0 then Disconnect(j)
    else
      var msg := if io.code < 500 then "500 Remote or cache error"
                 else IntText(io.code) + " " + (if io.msg == "" then "Unknown internal error" else io.msg);
      (Quick(req, j, msg, false), RAgain)
  }

  predicate Sendable(v: Option<Item>) { v.Some? && Order(v.value.status) <= 5 }

  function Least(a: int, b: int): int { if a < b then a else b }

  /** Moves `n` body bytes from the item's file to the socket. */
  function HandOut(j: Job, body: string, n: nat): Job
    requires j.sendPos + n <= |body|
  {
    var bytes := body[j.sendPos..j.sendPos + n];
    j.(sendPos := j.sendPos + n, allData := j.allData + n, wire := j.wire + bytes, handed := j.handed + bytes)
  }

  function DataStep(req: Request, body: string, j: Job, io: Io): (Job, Result)
    requires PossibleIo(req, body, j, io)
  {
    if req.headOnly then CleanEnd(req, j)
    else if !Sendable(io.view) then SuddenError(req, j, io)
    else
      var v := io.view.value;
      var limit := if j.to >= 0 then Least(j.to + 1 - j.sendPos, v.size - j.sendPos) else v.size - j.sendPos;
      if limit <= 0 then (j, RDiscon)
      else
        match io.file
        case Broken => Disconnect(j)
        case WouldBlock => Disconnect(j)
        case Sent(k) =>
          var j1 := HandOut(j, body, Least(k, limit));
          if v.status.Complete? && j1.sendPos == v.size then CleanEnd(req, j1)
          else if j.to >= 0 && j1.sendPos >= j.to + 1 then CleanEnd(req, j1)
          else (j1, RAgain)
  }

  function ChunkHeaderStep(req: Request, body: string, j: Job, io: Io): (Job, Result)
    requires PossibleIo(req, body, j, io)
  {
    if !Sendable(io.view) then SuddenError(req, j, io)
    else
      var v := io.view.value;
      if v.status.Complete? && j.sendPos == v.size then
        (j.(sendbuf := j.sendbuf + "0\r\n\r\n", activity := Finished), RAgain)
      else if !io.fdValid then SuddenError(req, j, io)
      else
        (j.(chunkEnd := if v.size < 0 then 0 else v.size,
            sendbuf := j.sendbuf + HexText(v.size - j.sendPos) + CRLF,
            activity := SendingChunkData), RAgain)
  }

  /** "%lx" of a signed number. */
  function HexText(n: int): string { if n < 0 then Hex((n + ULONG_MAX + 1) % (ULONG_MAX + 1)) else Hex(n) }

  function ChunkDataStep(req: Request, body: string, j: Job, io: Io): (Job, Result)
    requires WellFormed(body, j) && j.activity.SendingChunkData?
  {
    match io.file
    case Broken => SuddenError(req, j, io)
    case WouldBlock => SuddenError(req, j, io)
    case Sent(k) =>
      var j1 := HandOut(j, body, Least(k, j.chunkEnd - j.sendPos));
      if j1.sendPos == j.chunkEnd then (j1.(sendbuf := j.sendbuf + CRLF, activity := SendingChunkHeader), RAgain)
      else (j1, RAgain)
  }

  function Act(req: Request, body: string, j: Job, io: Io): (Job, Result)
    requires WellFormed(body, j) && PossibleIo(req, body, j, io)
  {
    match j.activity
    case Finished => CleanEnd(req, j)
    case NotStarted => if !Sendable(io.view) then SuddenError(req, j, io) else (Cook(req, j, io.view.value), RAgain)
    case SendBufNotFitem => CleanEnd(req, j)
    case DiscoAsap => (j, RDiscon)
    case SendingData => DataStep(req, body, j, io)
    case SendingChunkHeader => ChunkHeaderStep(req, body, j, io)
    case SendingChunkData => ChunkDataStep(req, body, j, io)
  }

  /** The first part of every call: what is left in the send buffer goes first. */
  function Flush(j: Job, n: nat): Job
    requires n <= |j.sendbuf|
  {
    j.(wire := j.wire + j.sendbuf[..n], sendbuf := j.sendbuf[n..], allData := j.allData + n)
  }

  /** SendData. */
  function SendData(req: Request, body: string, j: Job, io: Io): (Job, Result)
    requires WellFormed(body, j) && PossibleIo(req, body, j, io)
  {
    if j.sendbuf == "" then Act(req, body, j, io)
    else
      match io.net
      case WouldBlock => (j, RAgain)
      case Broken => Disconnect(j)
      case Sent(k) =>
        var j1 := Flush(j, Least(k, |j.sendbuf|));
        if j1.sendbuf != "" then (j1, RAgain) else Act(req, body, j1, io)
  }

  // ---------------------------------------------------------------- runs

  ghost predicate PossibleRun(req: Request, body: string, j: Job, ios: seq<Io>)
    decreases |ios|
  {
    ios == [] ||
    (WellFormed(body, j) && PossibleIo(req, body, j, ios[0]) &&
     PossibleRun(req, body, SendData(req, body, j, ios[0]).0, ios[1..]))
  }

  function RunAll(req: Request, body: string, j: Job, ios: seq<Io>): Job
    requires PossibleRun(req, body, j, ios)
    decreases |ios|
  {
    if ios == [] then j else RunAll(req, body, SendData(req, body, j, ios[0]).0, ios[1..])
  }
}
