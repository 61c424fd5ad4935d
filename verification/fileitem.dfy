/** The cache item (src/fileitem.cc) and the part of the download job that decides about it
    (tDlJob::AppendRequest and CheckAndSaveHeader in src/dlcon.cc), as functions on its state. */
module FileItem {
  import opened Text
  import opened ItemStatus
  import opened RemoteStatus

  /** Last-Modified stamps are tokens that are equal or not. */
  type Date = nat

  datatype Destroy = Keep | DeleteKeepHead | Truncate | Abandoned | Delete

  function Severity(d: Destroy): nat {
    match d case Keep => 0 case DeleteKeepHead => 1 case Truncate => 2 case Abandoned => 3 case Delete => 4
  }

  /** The .head file: absent, not a stored 200 head, or length (-1 if unknown) and date. */
  datatype HeadFile = Missing | Unusable | Stored(contLen: int, date: Option<Date>)

  /** The fields of the item and the part of the file system it works on: numbered files, the
      one its path names, and the open descriptor with its position. */
  datatype Fi = Fi(status: Status, sizeInitial: int, sizeChecked: int, contLen: int,
                   date: Option<Date>, code: int, mustReplace: bool, volatile: bool,
                   destroy: Destroy, refs: nat,
                   inodes: seq<string>, path: Option<nat>, fd: Option<nat>, pos: nat, head: HeadFile)

  predicate FilesExist(fi: Fi) {
    (fi.path.Some? ==> fi.path.value < |fi.inodes|) && (fi.fd.Some? ==> fi.fd.value < |fi.inodes|)
  }

  /** What opening the path would read. */
  function Content(fi: Fi): string {
    if fi.path.Some? && fi.path.value < |fi.inodes| then fi.inodes[fi.path.value] else ""
  }

  // ---------------------------------------------------------------- Setup

  function ErrorClean(fi: Fi): Fi {
    fi.(sizeInitial := -1, sizeChecked := -1, contLen := -1, mustReplace := true, status := Inited)
  }

  /** Of a file that is not volatile by nature, only the full length is taken for complete. */
  function JudgeCached(g: Fi): Fi {
    if g.volatile then g
    else if g.contLen < 0 then g.(volatile := true)
    else if g.contLen < g.sizeInitial then ErrorClean(g)
    else if g.sizeInitial == g.contLen then g.(sizeChecked := g.sizeInitial, status := Complete)
    else g.(volatile := true)
  }

  function Setup(fi: Fi): Fi {
    if !fi.status.Fresh? then fi
    else
      var f := fi.(status := Inited, sizeChecked := -1, sizeInitial := if fi.path.None? then -1 else |Content(fi)|);
      if fi.head.Unusable? then ErrorClean(f)
      else JudgeCached((if fi.head.Missing? then f else f.(contLen := fi.head.contLen, date := fi.head.date)).(code := 200))
  }

  // ---------------------------------------------------------------- errors and the end

  function SetError(fi: Fi, code: int, mode: Destroy): Fi {
    fi.(status := DlError, code := code,
        destroy := if Severity(mode) < Severity(fi.destroy) then mode else fi.destroy)
  }

  function MarkFaulty(fi: Fi, killFile: bool): Fi { SetError(fi, 500, if killFile then Delete else Truncate) }

  function DlFinish(fi: Fi, forceUpdateHeader: bool): Fi {
    if Order(fi.status) > 5 then fi
    else
      var f := fi.(status := Complete);
      if f.contLen >= 0 && !forceUpdateHeader then f
      else
        var g := if f.contLen < 0 then f.(contLen := f.sizeChecked) else f;
        if g.destroy.Keep? then g.(head := Stored(g.contLen, g.date)) else g
  }

  function RefAdd(fi: Fi): Fi { fi.(refs := fi.refs + 1) }

  /** DlRefCountDec: the last download job to go takes an unfinished item down with it. */
  function RefDec(fi: Fi, code: int): Fi
    requires fi.refs > 0
  {
    var f := fi.(refs := fi.refs - 1);
    if f.refs > 0 || Order(f.status) >= 5 then f else SetError(f, code, f.destroy)
  }

  // ---------------------------------------------------------------- DlStarted

  function DlStarted(fi: Fi, date: Option<Date>, code: int, seek: int, announced: int): (Fi, bool) {
    if Order(fi.status) >= 3 &&
       ((fi.contLen != announced && fi.contLen != -1) || date != fi.date || seek > fi.sizeChecked) then (fi, false)
    else
      var f := if Order(fi.status) >= 3 then fi else fi.(contLen := -1);
      var g := f.(status := DlGotHead);
      if seek >= 0 && g.sizeChecked >= 0 && seek < g.sizeChecked then (g, false)
      else
        (g.(sizeChecked := if seek >= 0 then seek else g.sizeChecked, code := code, date := date, contLen := announced), true)
  }

  // ---------------------------------------------------------------- writing

  /** Which of the file operations succeed. */
  datatype Disk = Disk(createOk: bool, moveOk: bool, renameOk: bool, openOk: bool, seekOk: bool, headOk: bool)

  function StorageError(fi: Fi): (Fi, bool) { (SetError(fi, 500, Keep), false) }

  /** replace_file: a new, empty file takes the path over. */
  function ReplaceFile(fi: Fi, d: Disk): (Fi, bool) {
    var f := fi.(fd := None, mustReplace := false);
    if !d.createOk || !d.moveOk then StorageError(f)
    else if !d.renameOk then StorageError(f.(path := None))
    else
      var n := |f.inodes|;
      (f.(inodes := f.inodes + [""], path := Some(n), fd := Some(n), pos := 0), true)
  }

  function OpenInPlace(fi: Fi, d: Disk): (Fi, bool)
    requires FilesExist(fi)
  {
    if !d.openOk then ReplaceFile(fi, d)
    else if fi.path.Some? then (fi.(fd := fi.path, pos := 0), true)
    else
      var n := |fi.inodes|;
      (fi.(inodes := fi.inodes + [""], path := Some(n), fd := Some(n), pos := 0), true)
  }

  /** The file is open; check its size, seek, and store the head. */
  function FinishOpen(fi: Fi, d: Disk): (Fi, bool)
    requires FilesExist(fi) && fi.fd.Some?
  {
    if !d.seekOk then StorageError(fi)
    else
      var onDisk := |fi.inodes[fi.fd.value]|;
      var (f, ok) := if onDisk > fi.contLen then ReplaceFile(fi, d) else (fi, true);
      var size := if onDisk > fi.contLen then 0 else onDisk;
      if !ok then (f, false)
      else
        var checked := if f.sizeChecked < 0 then 0 else f.sizeChecked;
        var g := f.(sizeChecked := checked, pos := checked);
        if checked > size || !d.headOk then StorageError(g)
        else (g.(head := Stored(g.contLen, g.date), status := DlReceiving), true)
  }

  function SafeOpenOutFile(fi: Fi, d: Disk): (Fi, bool)
    requires FilesExist(fi)
  {
    var f := fi.(fd := None);
    var (g, ok) := if f.mustReplace || f.contLen < 0 then ReplaceFile(f, d) else OpenInPlace(f, d);
    if !ok then (g, false) else FinishOpen(g, d)
  }

  function Overwrite(c: string, at: nat, chunk: string): string {
    if chunk == "" then c
    else if at <= |c| then c[..at] + chunk + (if at + |chunk| <= |c| then c[at + |chunk|..] else "")
    else c + seq(at - |c|, _ => '\0') + chunk
  }

  function Write(fi: Fi, chunk: string): Fi
    requires FilesExist(fi) && fi.fd.Some?
  {
    var n := fi.fd.value;
    fi.(inodes := fi.inodes[n := Overwrite(fi.inodes[n], fi.pos, chunk)],
        pos := fi.pos + |chunk|, sizeChecked := fi.sizeChecked + |chunk|)
  }

  /** DlAddData; the file system takes the first `wrote` bytes before a fatal error, if any. */
  function DlAddData(fi: Fi, chunk: string, d: Disk, wrote: nat): (Fi, bool)
    requires FilesExist(fi)
  {
    var (f, ok) := if fi.fd.None? then SafeOpenOutFile(fi, d) else (fi, true);
    if !ok then (f, false)
    else if f.fd.None? || Order(f.status) < 3 then StorageError(f)
    else if Order(f.status) > 5 then (f, false)
    else if wrote < |chunk| then StorageError(Write(f, chunk[..wrote]))
    else (Write(f, chunk), true)
  }

  // ---------------------------------------------------------------- the download job's side

  /** What was asked: the start of the range (no Range header unless it is positive) and the
      If-Range stamp that went with it. */
  datatype Query = Query(used: int, ifRange: Option<Date>)

  predicate AsksRange(q: Query) { q.used > 0 }

  /** The response in progress: the version it comes from and the next byte of it. */
  datatype Stream = Stream(version: Option<Date>, next: nat)

  datatype Dl = Dl(volatile: bool, owner: bool, allow: bool, query: Option<Query>, stream: Option<Stream>)

  /** The range part of AppendRequest; `vrange` is whether ranges on volatile files are enabled. */
  function RangeStart(fi: Fi, volatile: bool, vrange: bool): int {
    var s := if fi.sizeChecked >= 0 then fi.sizeChecked else fi.sizeInitial;
    var s1 := if s < -1 then -1 else s;
    if !volatile then s1
    else if !vrange || fi.date.None? then -1
    else if s1 == fi.contLen && s1 > 1 then s1 - 1
    else s1
  }

  function AppendRequest(fi: Fi, j: Dl, vrange: bool): Dl {
    j.(allow := true, query := Some(Query(RangeStart(fi, j.volatile, vrange), fi.date)), stream := None)
  }

  datatype RangeHeader = NoRange | BadRange | Bytes(start: int, total: int)
  datatype Response = Response(code: int, contLen: int, range: RangeHeader, date: Option<Date>, location: bool)
  datatype Eval = EvalGood | EvalBusy | EvalRestart

  function WithError(fi: Fi, j: Dl, mode: Destroy): (Fi, Dl, Eval) {
    (SetError(fi, 503, mode), j.(allow := false, owner := true), EvalBusy)
  }

  /** The answer to the one-byte request that only asks whether a complete file is current. */
  predicate IsProbeAnswer(fi: Fi, r: Response)
  {
    r.range.Bytes? && fi.volatile && fi.sizeInitial > 0 && r.range.total == fi.sizeInitial
    && fi.sizeInitial - 1 == r.range.start && fi.date == r.date
  }

  function Start(fi: Fi, j: Dl, date: Option<Date>, code: int, used: int, announced: int): (Fi, Dl, Eval) {
    var (f, ok) := DlStarted(fi, date, code, used, announced);
    var j1 := j.(owner := true);
    if !ok then (f, j1, EvalBusy)
    else if !j1.allow then (DlFinish(f, true), j1, EvalGood)
    else (f, j1, EvalGood)
  }

  function CheckAndSaveHeader(fi: Fi, j: Dl, r: Response): (Fi, Dl, Eval)
    requires j.query.Some?
  {
    if Order(fi.status) >= 5 || (!j.owner && Order(fi.status) > 2) then (fi, j, EvalBusy)
    else if r.code == 200 then Start(fi, j, r.date, 200, 0, r.contLen)
    else if r.code == 206 then
      if !r.range.Bytes? then WithError(fi, j, Keep)
      else if IsProbeAnswer(fi, r) then
        (DlFinish(fi.(sizeChecked := fi.sizeInitial, contLen := fi.sizeInitial), true),
         j.(allow := false, owner := true), EvalGood)
      else if r.range.start == -1 || j.query.value.used != r.range.start || r.range.start < fi.sizeInitial then
        WithError(fi, j, Keep)
      else Start(fi, j, r.date, 200, j.query.value.used, r.range.total)
    else if r.code == 416 then
      if fi.sizeChecked < 0 then (fi.(sizeInitial := 0, mustReplace := true), j, EvalRestart)
      else WithError(fi, j, Truncate)
    else if j.owner then WithError(fi, j, Keep)
    else if IsRedirect(r.code) && !r.location then WithError(fi, j, Keep)
    else Start(fi, j.(allow := false), r.date, r.code, j.query.value.used, -1)
  }

  /** The destroy mode only ever becomes less severe, and it starts at the least severe one:
      so no error ever schedules a file for truncation or removal, whatever mode it asks for. */
  lemma DestroyModeSticks(fi: Fi, code: int, mode: Destroy)
    ensures Severity(SetError(fi, code, mode).destroy) <= Severity(fi.destroy)
    ensures fi.destroy.Keep? ==> SetError(fi, code, mode).destroy.Keep?
  {
  }
}
