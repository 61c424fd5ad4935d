/** Runs of one cache item: any number of download jobs and readers, connections that break,
    a remote file that is replaced between requests. What is on disk, and what readers get, is
    always one version; and no reader waits for an item nobody downloads. */
module SingleVersion {
  import opened Text
  import opened ItemStatus
  import opened RemoteStatus
  import opened FileItem

  /** A client that sends the file: its descriptor, position, the size it saw last, its output. */
  datatype Reader = Reader(fd: Option<nat>, pos: nat, limit: nat, out: string)

  /** `good` records that a 200 or 206 answer was accepted, or the file was complete at start;
      `started` that a download job was ever attached; `known` that a connection remembers the item
      as the last one that was finished on it. */
  datatype Sys = Sys(fi: Fi, jobs: map<nat, Dl>, readers: map<nat, Reader>, good: bool, started: bool, known: bool)

  // ---------------------------------------------------------------- the remote side

  /** The contents of the remote file in each of its versions, by modification stamp: files
      with the same stamp are the same, and so are those without one. */
  type World = Option<Date> -> string

  /** A server that reports true stamps and lengths, and honours Range and If-Range. The version is
      whichever is current when it answers. (A star for the total of a range is read as 0.) */
  predicate Honest(w: World, q: Query, r: Response, v: Option<Date>) {
    && (r.code == 200 ==> r.date == v && (r.contLen == |w(v)| || r.contLen == -1))
    && (r.code == 206 ==>
         && r.date == v && AsksRange(q) && (q.ifRange.Some? ==> q.ifRange == v)
         && (r.range.Bytes? ==>
              r.range.start == q.used < |w(v)| && (r.range.total == |w(v)| || r.range.total == 0)))
  }

  // ---------------------------------------------------------------- events

  datatype Event =
    | AddJob(id: nat)
    | DropJob(id: nat)
    | Request(id: nat, vrange: bool)
    | Answer(id: nat, r: Response, v: Option<Date>)
    | Body(id: nat, chunk: string, d: Disk, wrote: nat)
    | Ended(id: nat)
    | Lost(id: nat)
    | KillLast
    | Attach(id: nat)
    | Look(id: nat)
    | Open(id: nat)
    | Send(id: nat, n: nat)

  function FirstByte(r: Response): nat {
    if r.code == 206 && r.range.Bytes? && r.range.start >= 0 then r.range.start else 0
  }

  /** The files the item refers to are there, and its jobs are counted. */
  predicate Usable(s: Sys) { FilesExist(s.fi) && (s.jobs != map[] ==> s.fi.refs > 0) }

  /** What can happen next, whatever the server is like. */
  predicate Can(s: Sys, e: Event) {
    Usable(s) &&
    match e
    case AddJob(id) => id !in s.jobs && !s.fi.status.Fresh?
    case DropJob(id) => id in s.jobs
    case Request(id, _) => id in s.jobs
    case Answer(id, _, _) => id in s.jobs && s.jobs[id].query.Some?
    case Body(id, chunk, _, _) => id in s.jobs && s.jobs[id].stream.Some? && chunk != ""
    case Ended(id) =>
      id in s.jobs && s.jobs[id].owner && s.jobs[id].query.None? && (s.jobs[id].stream.Some? || !s.jobs[id].allow)
    case Lost(id) => id in s.jobs
    // the next head on a connection that remembers the item is invalid, whoever waits for it
    case KillLast => s.known
    case Attach(id) => id !in s.readers
    case Look(id) =>
      // CookResponseHeader has seen code 200, AwaitSendableState a state up to COMPLETE
      id in s.readers && s.fi.code == 200 && 3 <= Order(s.fi.status) <= 5 && s.fi.sizeChecked > s.readers[id].pos
    case Open(id) => id in s.readers && s.readers[id].pos < s.readers[id].limit
    case Send(id, n) =>
      id in s.readers && s.readers[id].fd.Some? && s.readers[id].fd.value < |s.fi.inodes| &&
      s.readers[id].pos + n <= s.readers[id].limit && s.readers[id].pos + n <= |s.fi.inodes[s.readers[id].fd.value]|
  }

  /** The server is honest: in its answers, in the bytes it sends, and in where it ends. */
  predicate Faithful(w: World, s: Sys, e: Event)
    requires Can(s, e)
  {
    match e
    case Answer(id, r, v) => Honest(w, s.jobs[id].query.value, r, v)
    case Body(id, chunk, _, _) =>
      var st := s.jobs[id].stream.value;
      st.next + |chunk| <= |w(st.version)| && chunk == w(st.version)[st.next..st.next + |chunk|]
    case Ended(id) => s.jobs[id].stream.Some? ==> var st := s.jobs[id].stream.value; st.next == |w(st.version)|
    case _ => true
  }

  predicate Enabled(w: World, s: Sys, e: Event) { Can(s, e) && Faithful(w, s, e) }

  function Apply(s: Sys, e: Event): Sys
    requires Can(s, e)
  {
    match e
    case AddJob(id) =>
      s.(fi := RefAdd(s.fi), started := true,
         jobs := s.jobs[id := Dl(s.fi.volatile, false, true, None, None)])
    case DropJob(id) =>
      s.(fi := RefDec(s.fi, 503), jobs := s.jobs - {id})
    case Request(id, vrange) =>
      s.(jobs := s.jobs[id := AppendRequest(s.fi, s.jobs[id], vrange)])
    case Answer(id, r, v) =>
      var (f, j, eval) := CheckAndSaveHeader(s.fi, s.jobs[id], r);
      var stream := if eval.EvalGood? && j.allow then Some(Stream(v, FirstByte(r))) else None;
      s.(fi := f, jobs := s.jobs[id := j.(query := None, stream := stream)], good := s.good || (eval.EvalGood? && r.code in {200, 206}))
    case Body(id, chunk, d, wrote) =>
      var st := s.jobs[id].stream.value;
      var (f, ok) := DlAddData(s.fi, chunk, d, wrote);
      s.(fi := f, jobs := s.jobs[id := s.jobs[id].(stream := if ok then Some(st.(next := st.next + |chunk|)) else None)])
    case Ended(id) =>
      s.(fi := RefDec(DlFinish(s.fi, false), 503), jobs := s.jobs - {id}, known := true)
    case Lost(id) =>
      s.(jobs := s.jobs[id := s.jobs[id].(query := None, stream := None)])
    case KillLast => s.(fi := MarkFaulty(s.fi, false))
    case Attach(id) =>
      s.(readers := s.readers[id := Reader(None, 0, 0, "")])
    case Look(id) =>
      s.(readers := s.readers[id := s.readers[id].(limit := s.fi.sizeChecked)])
    case Open(id) =>
      // when there is something to send; for every chunk again in chunked mode
      s.(readers := s.readers[id := s.readers[id].(fd := s.fi.path)])
    case Send(id, n) =>
      var r := s.readers[id];
      s.(readers := s.readers[id := r.(pos := r.pos + n, out := r.out + s.fi.inodes[r.fd.value][r.pos..r.pos + n])])
  }

  // ---------------------------------------------------------------- the invariant

  /** As far as the file goes below `n`, it agrees with the text. */
  ghost predicate Agrees(file: string, text: string, n: int) {
    n <= |text| && forall i :: 0 <= i < n && i < |file| ==> file[i] == text[i]
  }

  /** The version the item stands for. */
  function Version(w: World, fi: Fi): string { w(fi.date) }

  /** The bytes an unanswered Range request builds on are those of the version it names. */
  ghost predicate QueryOk(w: World, fi: Fi, j: Dl) {
    j.query.Some? && AsksRange(j.query.value) && Order(fi.status) <= 4 ==>
      var q := j.query.value;
      && (Order(fi.status) <= 2 ==>
           q.ifRange.Some? && fi.date == q.ifRange && q.used <= |Content(fi)| && Agrees(Content(fi), Version(w, fi), q.used))
      && (j.owner && 3 <= Order(fi.status) ==>
           fi.date == q.ifRange && fi.sizeChecked - 1 <= q.used <= fi.sizeChecked)
  }

  ghost predicate StreamOk(fi: Fi, j: Dl) {
    j.stream.Some? ==>
      && j.owner && j.allow && j.query.None? && 3 <= Order(fi.status) <= 4
      && fi.date == j.stream.value.version && j.stream.value.next == fi.sizeChecked
  }

  ghost predicate OwnerOk(fi: Fi, j: Dl) {
    (j.query.Some? ==> j.allow) && (j.owner ==> Order(fi.status) >= 3) && (j.owner && !j.allow ==> Order(fi.status) >= 5) && j.volatile == fi.volatile
  }

  ghost predicate JobOk(w: World, fi: Fi, j: Dl) {
    QueryOk(w, fi, j) && StreamOk(fi, j) && OwnerOk(fi, j)
  }

  ghost predicate JobsOk(w: World, s: Sys) {
    && s.fi.refs == |s.jobs| && (s.jobs != map[] ==> s.started)
    && (forall id :: id in s.jobs ==> JobOk(w, s.fi, s.jobs[id]))
    && (forall a, b :: a in s.jobs && b in s.jobs && s.jobs[a].owner && s.jobs[b].owner ==> a == b)
  }

  /** Before an answer was accepted: nothing is checked, and what a Range request could build on
      is a prefix of the version the stored stamp names. */
  ghost predicate FreshOk(w: World, fi: Fi) {
    Order(fi.status) <= 2 ==>
      && fi.sizeChecked == -1 && fi.fd.None?
      && (fi.sizeInitial > 0 ==> fi.volatile && fi.code == 200)
      && (fi.sizeInitial > 0 && fi.date.Some? ==>
            fi.sizeInitial <= |Content(fi)| && Agrees(Content(fi), Version(w, fi), fi.sizeInitial))
  }

  /** The length that is announced: right, unknown, or, with the star of a partial answer, none. */
  ghost predicate LengthOk(w: World, fi: Fi) {
    fi.contLen == |Version(w, fi)| || fi.contLen == -1 || (fi.contLen == 0 && fi.sizeChecked > 0)
  }

  /** Once one was accepted: the checked part of the file is the version named by the stamp,
      and a complete file is all of it. */
  ghost predicate GoodOk(w: World, fi: Fi) {
    && 3 <= Order(fi.status) && fi.sizeChecked >= 0
    && Agrees(Content(fi), Version(w, fi), fi.sizeChecked)
    && (Order(fi.status) <= 5 ==> fi.code == 200 && fi.sizeChecked <= |Content(fi)|)
    && (Order(fi.status) <= 4 ==> LengthOk(w, fi))
    && (Order(fi.status) <= 4 && fi.fd.Some? ==> fi.fd == fi.path && fi.pos == fi.sizeChecked)
    && (fi.status.Complete? ==> fi.sizeChecked == |Version(w, fi)|)
  }

  ghost predicate ReaderOk(w: World, s: Sys, r: Reader) {
    && r.pos <= r.limit && (r.limit > 0 ==> s.good && r.limit <= s.fi.sizeChecked)
    && r.pos <= |Version(w, s.fi)| && r.out == Version(w, s.fi)[..r.pos]
    && (r.fd.Some? && Order(s.fi.status) <= 5 ==> r.fd == s.fi.path)
    && (r.fd.Some? ==> r.limit > 0 && r.fd.value < |s.fi.inodes| && Agrees(s.fi.inodes[r.fd.value], Version(w, s.fi), r.limit))
  }

  ghost predicate ItemOk(w: World, s: Sys) {
    && FilesExist(s.fi) && !s.fi.status.Fresh?
    && (s.good ==> GoodOk(w, s.fi)) && FreshOk(w, s.fi)
    && (3 <= Order(s.fi.status) <= 4 ==> s.good)
    && (s.fi.status.Complete? && s.fi.code == 200 ==> s.good)
  }

  ghost predicate Inv(w: World, s: Sys) {
    && ItemOk(w, s) && JobsOk(w, s)
    && (forall id :: id in s.readers ==> ReaderOk(w, s, s.readers[id]))
    && (s.started && s.jobs == map[] ==> Order(s.fi.status) >= 5)
    && (s.known ==> Order(s.fi.status) >= 5)
  }

  // ---------------------------------------------------------------- one item operation

  /** As it was, or marked as faulty. */
  predicate SameEnd(a: Fi, b: Fi) {
    (b.status == a.status && b.code == a.code) || (b.status.DlError? && b.code == 500)
  }

  /** What every operation on the item does for everyone else: files that exist keep their
      checked bytes, a finished item stays finished, if perhaps as a faulty one, and a version
      once settled stays. */
  ghost predicate Keeps(w: World, good: bool, a: Fi, b: Fi) {
    && FilesExist(b) && |a.inodes| <= |b.inodes| && b.volatile == a.volatile
    && (Order(a.status) >= 5 ==> SameEnd(a, b) && b.sizeChecked == a.sizeChecked)
    && (Order(a.status) >= 3 ==> Order(b.status) >= 3)
    && (good ==> b.date == a.date && a.sizeChecked <= b.sizeChecked)
    && (good ==> forall n, l :: 0 <= n < |a.inodes| && l <= a.sizeChecked && Agrees(a.inodes[n], Version(w, a), l) ==>
          Agrees(b.inodes[n], Version(w, a), l))
  }

  /** The path goes on naming the same file once some of it is checked, unless that is the end. */
  predicate SamePlace(a: Fi, b: Fi) {
    a.sizeChecked > 0 && Order(b.status) <= 5 ==> b.path == a.path && Order(a.status) <= 5
  }

  /** Readers do not notice an operation that keeps what they depend on. */
  lemma ReadersKept(w: World, s: Sys, t: Sys)
    requires forall id :: id in s.readers ==> ReaderOk(w, s, s.readers[id])
    requires Keeps(w, s.good, s.fi, t.fi) && SamePlace(s.fi, t.fi) && t.readers == s.readers && (s.good ==> t.good)
    ensures forall id :: id in t.readers ==> ReaderOk(w, t, t.readers[id])
  {
    forall id | id in t.readers ensures ReaderOk(w, t, t.readers[id]) {
      var r := s.readers[id];
      assert ReaderOk(w, s, r);
    }
  }

  /** Nor do other jobs: either the item is the same for them, or they do not own it and it has
      an owner now. */
  lemma JobKept(w: World, a: Fi, b: Fi, j: Dl)
    requires JobOk(w, a, j) && b.volatile == a.volatile
    requires
      || (!j.owner && 3 <= Order(b.status) && (Order(a.status) >= 5 ==> Order(b.status) >= 5))
      || (b.status == a.status && b.date == a.date && b.sizeChecked == a.sizeChecked && Content(b) == Content(a))
      || (Order(a.status) >= 5 && Order(b.status) >= 5)
    ensures JobOk(w, b, j)
  {
  }

  /** What a job must leave behind for the item and for the other jobs. */
  ghost predicate Sound(w: World, s: Sys, j0: Dl, f: Fi, j: Dl, good: bool) {
    && Keeps(w, s.good, s.fi, f) && SamePlace(s.fi, f) && (s.good ==> good) && f.refs == s.fi.refs
    && ItemOk(w, s.(fi := f, good := good)) && JobOk(w, f, j)
    && (j.owner ==> j0.owner || Order(s.fi.status) <= 2)
    && (|| (3 <= Order(f.status) && (j0.owner || Order(s.fi.status) <= 2))
        || (f.status == s.fi.status && f.date == s.fi.date && f.sizeChecked == s.fi.sizeChecked && Content(f) == Content(s.fi)))
  }

  function After(f: Fi, j: Dl, eval: Eval, r: Response, v: Option<Date>): Dl {
    j.(query := None, stream := if eval.EvalGood? && j.allow then Some(Stream(v, FirstByte(r))) else None)
  }

  lemma ErrorSound(w: World, s: Sys, id: nat, r: Response, mode: Destroy)
    requires ItemOk(w, s) && id in s.jobs && JobOk(w, s.fi, s.jobs[id]) && Order(s.fi.status) <= 4
    requires s.jobs[id].owner || Order(s.fi.status) <= 2
    ensures var (f, j, eval) := WithError(s.fi, s.jobs[id], mode);
      Sound(w, s, s.jobs[id], f, j.(query := None, stream := None), s.good)
  {
  }

  lemma FullAnswer(w: World, s: Sys, id: nat, r: Response, v: Option<Date>)
    requires ItemOk(w, s) && id in s.jobs && JobOk(w, s.fi, s.jobs[id]) && s.jobs[id].query.Some?
    requires s.jobs[id].owner || Order(s.fi.status) <= 2
    requires Order(s.fi.status) <= 4 && r.code == 200 && Honest(w, s.jobs[id].query.value, r, v)
    ensures var (f, j, eval) := Start(s.fi, s.jobs[id], r.date, 200, 0, r.contLen);
      Sound(w, s, s.jobs[id], f, After(f, j, eval, r, v), s.good || eval.EvalGood?)
  {
    if Order(s.fi.status) <= 2 { FullFresh(w, s, id, r, v); } else { FullAgain(w, s, id, r, v); }
  }

  lemma FullFresh(w: World, s: Sys, id: nat, r: Response, v: Option<Date>)
    requires ItemOk(w, s) && id in s.jobs && JobOk(w, s.fi, s.jobs[id]) && s.jobs[id].query.Some?
    requires Order(s.fi.status) <= 2 && r.code == 200 && Honest(w, s.jobs[id].query.value, r, v)
    ensures var (f, j, eval) := Start(s.fi, s.jobs[id], r.date, 200, 0, r.contLen);
      Sound(w, s, s.jobs[id], f, After(f, j, eval, r, v), s.good || eval.EvalGood?)
  {
  }

  lemma FullAgain(w: World, s: Sys, id: nat, r: Response, v: Option<Date>)
    requires ItemOk(w, s) && id in s.jobs && JobOk(w, s.fi, s.jobs[id]) && s.jobs[id].query.Some?
    requires s.jobs[id].owner
    requires 3 <= Order(s.fi.status) <= 4 && r.code == 200 && Honest(w, s.jobs[id].query.value, r, v)
    ensures var (f, j, eval) := Start(s.fi, s.jobs[id], r.date, 200, 0, r.contLen);
      Sound(w, s, s.jobs[id], f, After(f, j, eval, r, v), s.good || eval.EvalGood?)
  {
    hide Agrees;
  }

  lemma ResumeAnswer(w: World, s: Sys, id: nat, r: Response, v: Option<Date>)
    requires ItemOk(w, s) && id in s.jobs && JobOk(w, s.fi, s.jobs[id]) && s.jobs[id].query.Some?
    requires s.jobs[id].owner || Order(s.fi.status) <= 2
    requires Order(s.fi.status) <= 4 && r.code == 206 && Honest(w, s.jobs[id].query.value, r, v)
    requires r.range.Bytes? && s.fi.sizeInitial <= r.range.start
    ensures var (f, j, eval) := Start(s.fi, s.jobs[id], r.date, 200, s.jobs[id].query.value.used, r.range.total);
      Sound(w, s, s.jobs[id], f, After(f, j, eval, r, v), s.good || eval.EvalGood?)
  {
    if Order(s.fi.status) <= 2 { ResumeCached(w, s, id, r, v); } else { ResumeChecked(w, s, id, r, v); }
  }

  lemma ResumeCached(w: World, s: Sys, id: nat, r: Response, v: Option<Date>)
    requires ItemOk(w, s) && id in s.jobs && JobOk(w, s.fi, s.jobs[id]) && s.jobs[id].query.Some?
    requires Order(s.fi.status) <= 2 && r.code == 206 && Honest(w, s.jobs[id].query.value, r, v)
    requires r.range.Bytes? && s.fi.sizeInitial <= r.range.start
    ensures var (f, j, eval) := Start(s.fi, s.jobs[id], r.date, 200, s.jobs[id].query.value.used, r.range.total);
      Sound(w, s, s.jobs[id], f, After(f, j, eval, r, v), s.good || eval.EvalGood?)
  {
  }

  lemma ResumeChecked(w: World, s: Sys, id: nat, r: Response, v: Option<Date>)
    requires ItemOk(w, s) && id in s.jobs && JobOk(w, s.fi, s.jobs[id]) && s.jobs[id].query.Some?
    requires s.jobs[id].owner
    requires 3 <= Order(s.fi.status) <= 4 && r.code == 206 && Honest(w, s.jobs[id].query.value, r, v)
    requires r.range.Bytes? && s.fi.sizeInitial <= r.range.start
    ensures var (f, j, eval) := Start(s.fi, s.jobs[id], r.date, 200, s.jobs[id].query.value.used, r.range.total);
      Sound(w, s, s.jobs[id], f, After(f, j, eval, r, v), s.good || eval.EvalGood?)
  {
    hide Agrees;
  }

  /** The probe answer comes in for a download under way, whose last byte has not arrived, and
      the byte the file has there is not the right one. */
  ghost predicate Spoils(w: World, s: Sys, id: nat, r: Response) {
    && id in s.jobs && s.jobs[id].owner && r.code == 206 && IsProbeAnswer(s.fi, r) && 3 <= Order(s.fi.status) <= 4 && s.fi.sizeChecked < s.fi.sizeInitial
    && !(s.fi.sizeInitial <= |Content(s.fi)| && s.fi.sizeInitial <= |Version(w, s.fi)|
         && Content(s.fi)[s.fi.sizeInitial - 1] == Version(w, s.fi)[s.fi.sizeInitial - 1])
  }

  lemma ProbeAnswer(w: World, s: Sys, id: nat, r: Response, v: Option<Date>)
    requires ItemOk(w, s) && id in s.jobs && JobOk(w, s.fi, s.jobs[id]) && s.jobs[id].query.Some?
    requires s.jobs[id].owner || Order(s.fi.status) <= 2
    requires Order(s.fi.status) <= 4 && r.code == 206 && Honest(w, s.jobs[id].query.value, r, v)
    requires IsProbeAnswer(s.fi, r) && !Spoils(w, s, id, r)
    ensures var (f, j, eval) := CheckAndSaveHeader(s.fi, s.jobs[id], r);
      Sound(w, s, s.jobs[id], f, After(f, j, eval, r, v), true)
  {
  }

  lemma OtherAnswer(w: World, s: Sys, id: nat, r: Response, v: Option<Date>)
    requires ItemOk(w, s) && id in s.jobs && JobOk(w, s.fi, s.jobs[id]) && s.jobs[id].query.Some?
    requires Order(s.fi.status) <= 2 && !s.jobs[id].owner
    requires r.code !in {200, 206, 416} && (IsRedirect(r.code) ==> r.location)
    ensures var (f, j, eval) := CheckAndSaveHeader(s.fi, s.jobs[id], r);
      Sound(w, s, s.jobs[id], f, After(f, j, eval, r, v), s.good)
  {
  }

  lemma AnswerSound(w: World, s: Sys, id: nat, r: Response, v: Option<Date>)
    requires ItemOk(w, s) && id in s.jobs && JobOk(w, s.fi, s.jobs[id]) && s.jobs[id].query.Some?
    requires Honest(w, s.jobs[id].query.value, r, v) && !Spoils(w, s, id, r)
    ensures var (f, j, eval) := CheckAndSaveHeader(s.fi, s.jobs[id], r);
      Sound(w, s, s.jobs[id], f, After(f, j, eval, r, v), s.good || (eval.EvalGood? && r.code in {200, 206}))
  {
    hide Honest, Sound, ItemOk, JobOk, Start, Agrees, IsProbeAnswer, Spoils, Version, Content;
    var fi, j0 := s.fi, s.jobs[id];
    if Order(fi.status) >= 5 || (!j0.owner && Order(fi.status) > 2) {
      Ignored(w, s, id, r, v);
    } else if r.code == 200 {
      FullAnswer(w, s, id, r, v);
    } else if r.code == 206 {
      if !r.range.Bytes? {
        ErrorSound(w, s, id, r, Keep);
      } else if IsProbeAnswer(fi, r) {
        ProbeAnswer(w, s, id, r, v);
      } else if r.range.start == -1 || j0.query.value.used != r.range.start || r.range.start < fi.sizeInitial {
        ErrorSound(w, s, id, r, Keep);
      } else {
        ResumeAnswer(w, s, id, r, v);
      }
    } else if r.code == 416 {
      if fi.sizeChecked < 0 {
        Ignored(w, s, id, r, v);
      } else {
        ErrorSound(w, s, id, r, Truncate);
      }
    } else if j0.owner || (IsRedirect(r.code) && !r.location) {
      ErrorSound(w, s, id, r, Keep);
    } else {
      OtherAnswer(w, s, id, r, v);
    }
  }

  /** Answers that change nothing that matters: for a finished item, for one another job serves,
      and a refused range before anything was accepted. */
  lemma Ignored(w: World, s: Sys, id: nat, r: Response, v: Option<Date>)
    requires ItemOk(w, s) && id in s.jobs && JobOk(w, s.fi, s.jobs[id]) && s.jobs[id].query.Some?
    requires Order(s.fi.status) >= 5 || (!s.jobs[id].owner && Order(s.fi.status) > 2) || (r.code == 416 && s.fi.sizeChecked < 0)
    ensures var (f, j, eval) := CheckAndSaveHeader(s.fi, s.jobs[id], r);
      Sound(w, s, s.jobs[id], f, After(f, j, eval, r, v), s.good) && (eval.EvalGood? ==> r.code !in {200, 206})
  {
  }

  // ---------------------------------------------------------------- storing

  /** What opening and writing the file leave behind. */
  ghost predicate Stores(w: World, a: Fi, b: Fi, ok: bool) {
    && Keeps(w, true, a, b) && GoodOk(w, b) && b.refs == a.refs
    && (if ok then 3 <= Order(b.status) <= 4 && b.fd.Some? else b.status.DlError? && b.code != 200)
  }

  /** The item between these operations: a download under way, its file open or not. */
  ghost predicate Active(w: World, fi: Fi) {
    && FilesExist(fi) && 3 <= Order(fi.status) <= 4 && fi.sizeChecked >= 0 && fi.code == 200
    && Agrees(Content(fi), Version(w, fi), fi.sizeChecked) && LengthOk(w, fi)
  }

  ghost predicate Opens(w: World, a: Fi, b: Fi, ok: bool) {
    if ok then Keeps(w, true, a, b) && Active(w, b) && b.refs == a.refs && b.fd.Some? && b.fd == b.path && b.sizeChecked == a.sizeChecked
    else Stores(w, a, b, false)
  }

  lemma ReplaceOpens(w: World, fi: Fi, d: Disk)
    requires Active(w, fi)
    ensures var (f, ok) := ReplaceFile(fi, d); Opens(w, fi, f, ok) && (ok ==> Content(f) == "")
  {
  }

  lemma InPlaceOpens(w: World, fi: Fi, d: Disk)
    requires Active(w, fi)
    ensures var (f, ok) := OpenInPlace(fi, d); Opens(w, fi, f, ok)
  {
    hide ReplaceFile, Agrees;
    if !d.openOk { ReplaceOpens(w, fi, d); }
    else if fi.path.Some? {}
    else { assert Agrees("", Version(w, fi), fi.sizeChecked) by { EmptyAgrees(fi, w); } }
  }

  lemma EmptyAgrees(fi: Fi, w: World)
    requires Active(w, fi)
    ensures Agrees("", Version(w, fi), fi.sizeChecked)
  {
  }

  /** The end of it, once the size of the file is settled. */
  lemma SeekStores(w: World, fi: Fi, d: Disk)
    requires Active(w, fi) && fi.fd.Some? && fi.fd == fi.path && d.seekOk && |Content(fi)| <= fi.contLen
    ensures var (f, ok) := FinishOpen(fi, d); Stores(w, fi, f, ok)
  {
    hide Agrees, ReplaceFile;
  }

  lemma AnewStores(w: World, fi: Fi, d: Disk)
    requires Active(w, fi) && fi.fd.Some? && fi.fd == fi.path && d.seekOk && |Content(fi)| > fi.contLen
    ensures var (f, ok) := FinishOpen(fi, d); Stores(w, fi, f, ok)
  {
    hide Agrees, ReplaceFile, Version, Stores;
    ReplaceOpens(w, fi, d);
    var (f, ok) := ReplaceFile(fi, d);
    if ok {
      var r := FinishOpen(fi, d);
      assert Stores(w, f, r.0, r.1) by { Reseek(w, f, d); }
      StoresTrans(w, fi, f, r.0, r.1);
    }
  }

  lemma Reseek(w: World, f: Fi, d: Disk)
    requires Active(w, f) && f.fd.Some? && f.fd == f.path && Content(f) == ""
    ensures
      var g := f.(pos := f.sizeChecked);
      var r := if f.sizeChecked > 0 || !d.headOk then StorageError(g)
               else (g.(head := Stored(g.contLen, g.date), status := DlReceiving), true);
      Stores(w, f, r.0, r.1)
  {
    hide Agrees;
  }

  lemma OpenStores(w: World, fi: Fi, d: Disk)
    requires Active(w, fi) && GoodOk(w, fi)
    ensures var (f, ok) := SafeOpenOutFile(fi, d); Stores(w, fi, f, ok)
  {
    hide Keeps, GoodOk, Agrees, FinishOpen, ReplaceFile, OpenInPlace, Version, Content;
    var f := fi.(fd := None);
    assert Active(w, f) && Keeps(w, true, fi, f) by { Unopened(w, fi); }
    if f.mustReplace || f.contLen < 0 { ReplaceOpens(w, f, d); } else { InPlaceOpens(w, f, d); }
    var (g, ok) := if f.mustReplace || f.contLen < 0 then ReplaceFile(f, d) else OpenInPlace(f, d);
    if ok {
      var r := FinishOpen(g, d);
      assert Stores(w, g, r.0, r.1) by { FinishStores(w, g, d); }
      StoresTrans(w, f, g, r.0, r.1);
      StoresTrans(w, fi, f, r.0, r.1);
    } else {
      StoresTrans(w, fi, f, g, false);
    }
  }

  lemma Unopened(w: World, fi: Fi)
    requires Active(w, fi)
    ensures Active(w, fi.(fd := None)) && Keeps(w, true, fi, fi.(fd := None))
  {
  }

  lemma FinishStores(w: World, fi: Fi, d: Disk)
    requires Active(w, fi) && fi.fd.Some? && fi.fd == fi.path
    ensures var (f, ok) := FinishOpen(fi, d); Stores(w, fi, f, ok)
  {
    hide Agrees, ReplaceFile;
    if !d.seekOk {
    } else if |Content(fi)| <= fi.contLen {
      SeekStores(w, fi, d);
    } else {
      AnewStores(w, fi, d);
    }
  }

  lemma StoresTrans(w: World, a: Fi, b: Fi, c: Fi, ok: bool)
    requires Keeps(w, true, a, b) && Stores(w, b, c, ok) && a.refs == b.refs && a.sizeChecked <= b.sizeChecked
    ensures Stores(w, a, c, ok)
  {
    hide GoodOk, Agrees;
    var v := Version(w, a);
    assert v == Version(w, b);
    forall n, l | 0 <= n < |a.inodes| && l <= a.sizeChecked && Agrees(a.inodes[n], v, l) ensures Agrees(c.inodes[n], v, l) {
      assert Agrees(b.inodes[n], v, l);
    }
  }

  lemma OverwriteAgrees(c: string, at: nat, chunk: string, text: string, l: int)
    requires at <= |c| && at + |chunk| <= |text| && chunk == text[at..at + |chunk|]
    ensures Agrees(c, text, at) ==> Agrees(Overwrite(c, at, chunk), text, at + |chunk|)
    ensures l <= at && Agrees(c, text, l) ==> Agrees(Overwrite(c, at, chunk), text, l)
    ensures |Overwrite(c, at, chunk)| >= at + |chunk| && |Overwrite(c, at, chunk)| >= |c|
  {
  }

  /** Every file agrees with the version as far as it did before the write. */
  lemma WriteKeeps(w: World, fi: Fi, chunk: string)
    requires FilesExist(fi) && fi.fd.Some? && 3 <= Order(fi.status) <= 4 && fi.pos == fi.sizeChecked <= |fi.inodes[fi.fd.value]|
    requires fi.sizeChecked + |chunk| <= |Version(w, fi)| && chunk == Version(w, fi)[fi.sizeChecked..fi.sizeChecked + |chunk|]
    ensures Keeps(w, true, fi, Write(fi, chunk))
  {
    hide Overwrite, Agrees, Version;
    var n, v, f := fi.fd.value, Version(w, fi), Write(fi, chunk);
    forall m, l | 0 <= m < |fi.inodes| && l <= fi.sizeChecked && Agrees(fi.inodes[m], v, l) ensures Agrees(f.inodes[m], v, l) {
      if m == n { OverwriteAgrees(fi.inodes[n], fi.pos, chunk, v, l); }
    }
  }

  lemma WriteStores(w: World, fi: Fi, chunk: string)
    requires FilesExist(fi) && GoodOk(w, fi) && 3 <= Order(fi.status) <= 4 && fi.fd.Some?
    requires fi.sizeChecked + |chunk| <= |Version(w, fi)| && chunk == Version(w, fi)[fi.sizeChecked..fi.sizeChecked + |chunk|]
    ensures Stores(w, fi, Write(fi, chunk), true) && Write(fi, chunk).sizeChecked == fi.sizeChecked + |chunk|
  {
    hide Overwrite, Agrees, Keeps;
    var n, v, f := fi.fd.value, Version(w, fi), Write(fi, chunk);
    WriteKeeps(w, fi, chunk);
    OverwriteAgrees(fi.inodes[n], fi.pos, chunk, v, fi.sizeChecked);
    assert Content(f) == Overwrite(fi.inodes[n], fi.pos, chunk);
  }

  lemma WritePath(fi: Fi, chunk: string)
    requires FilesExist(fi) && fi.fd.Some?
    ensures Write(fi, chunk).path == fi.path
  {
  }

  lemma PartOfChunk(text: string, at: nat, chunk: string, n: nat)
    requires at + |chunk| <= |text| && chunk == text[at..at + |chunk|] && n <= |chunk|
    ensures chunk[..n] == text[at..at + n] && chunk[..|chunk|] == chunk
  {
  }

  lemma FailsStored(w: World, a: Fi, b: Fi)
    requires Stores(w, a, b, true)
    ensures Stores(w, a, StorageError(b).0, false)
  {
    hide Agrees;
  }

  /** DlAddData with the next bytes of the version, all of them written or not. */
  lemma AddStores(w: World, fi: Fi, chunk: string, d: Disk, wrote: nat)
    requires FilesExist(fi) && GoodOk(w, fi) && 3 <= Order(fi.status) <= 4
    requires fi.sizeChecked + |chunk| <= |Version(w, fi)| && chunk == Version(w, fi)[fi.sizeChecked..fi.sizeChecked + |chunk|]
    ensures var (f, ok) := DlAddData(fi, chunk, d, wrote);
      Stores(w, fi, f, ok) && SamePlace(fi, f) && (ok ==> f.sizeChecked == fi.sizeChecked + |chunk|)
  {
    hide Agrees, SafeOpenOutFile, Write, Version, Content;
    if fi.fd.None? { OpenStores(w, fi, d); OpenChecked(w, fi, d); }
    var (f, ok) := if fi.fd.None? then SafeOpenOutFile(fi, d) else (fi, true);
    if ok {
      assert f.sizeChecked == fi.sizeChecked;
      var part := if wrote < |chunk| then chunk[..wrote] else chunk;
      PartOfChunk(Version(w, fi), fi.sizeChecked, chunk, |part|);
      assert Version(w, f) == Version(w, fi) by { if fi.fd.None? { KeepsVersion(w, fi, f); } }
      assert part == Version(w, f)[f.sizeChecked..f.sizeChecked + |part|];
      WriteStores(w, f, part);
      assert Write(f, part).path == f.path by { WritePath(f, part); }
      assert Keeps(w, true, fi, Write(f, part)) by { if fi.fd.None? { StoresTrans(w, fi, f, Write(f, part), true); } }
      FailsStored(w, fi, Write(f, part));
    }
  }

  /** A file with something checked is not replaced: that is an error. */
  lemma OpenChecked(w: World, fi: Fi, d: Disk)
    requires FilesExist(fi) && fi.sizeChecked >= 0 && Order(fi.status) <= 5
    ensures SafeOpenOutFile(fi, d).0.sizeChecked == fi.sizeChecked && SamePlace(fi, SafeOpenOutFile(fi, d).0)
  {
  }

  // ---------------------------------------------------------------- one event

  lemma JobCounts(jobs: map<nat, Dl>, id: nat, j: Dl)
    ensures id in jobs ==> |jobs[id := j]| == |jobs| && |jobs - {id}| == |jobs| - 1
    ensures id !in jobs ==> |jobs[id := j]| == |jobs| + 1
  {
    assert (jobs - {id}).Keys == jobs.Keys - {id};
    assert jobs[id := j].Keys == jobs.Keys + {id};
    assert |jobs.Keys| == |jobs| && |(jobs - {id}).Keys| == |jobs - {id}| && |jobs[id := j].Keys| == |jobs[id := j]|;
  }

  /** One job's turn: the item operation is sound, the job is put back, and all is well. */
  lemma JobTurn(w: World, s: Sys, id: nat, f: Fi, j: Dl, good: bool)
    requires Inv(w, s) && id in s.jobs && Sound(w, s, s.jobs[id], f, j, good)
    ensures Inv(w, s.(fi := f, good := good, jobs := s.jobs[id := j]))
  {
    hide Keeps, GoodOk, FreshOk, ReaderOk, QueryOk, StreamOk, Agrees, Content;
    var t := s.(fi := f, good := good, jobs := s.jobs[id := j]);
    JobCounts(s.jobs, id, j);
    ReadersKept(w, s, t);
    if Order(s.fi.status) >= 5 { KeepsEnd(w, s.good, s.fi, f); }
    forall k | k in t.jobs ensures JobOk(w, f, t.jobs[k]) {
      if k != id {
        assert JobOk(w, s.fi, s.jobs[k]);
        OtherKept(w, s, id, f, j, good, k);
      }
    }
    forall a, b | a in t.jobs && b in t.jobs && t.jobs[a].owner && t.jobs[b].owner ensures a == b {
      assert forall k :: k in s.jobs ==> JobOk(w, s.fi, s.jobs[k]);
    }
  }

  lemma KeepsEnd(w: World, good: bool, a: Fi, b: Fi)
    requires Keeps(w, good, a, b) && Order(a.status) >= 5
    ensures Order(b.status) >= 5
  {
  }

  lemma OtherKept(w: World, s: Sys, id: nat, f: Fi, j: Dl, good: bool, k: nat)
    requires JobsOk(w, s) && id in s.jobs && Sound(w, s, s.jobs[id], f, j, good) && k in s.jobs && k != id
    ensures JobOk(w, f, s.jobs[k])
  {
    hide GoodOk, FreshOk, QueryOk, Agrees, Content;
    assert JobOk(w, s.fi, s.jobs[k]);
    if 3 <= Order(f.status) && (s.jobs[id].owner || Order(s.fi.status) <= 2) {
      assert !s.jobs[k].owner;
    }
    JobKept(w, s.fi, f, s.jobs[k]);
  }

  lemma AnswerStep(w: World, s: Sys, id: nat, r: Response, v: Option<Date>)
    requires Inv(w, s) && Enabled(w, s, Answer(id, r, v)) && !Spoils(w, s, id, r)
    ensures Inv(w, Apply(s, Answer(id, r, v)))
  {
    hide ItemOk, JobsOk, Sound, CheckAndSaveHeader, Spoils, Honest;
    assert JobOk(w, s.fi, s.jobs[id]) by { OneJob(w, s, id); }
    AnswerSound(w, s, id, r, v);
    var (f, j, eval) := CheckAndSaveHeader(s.fi, s.jobs[id], r);
    JobTurn(w, s, id, f, After(f, j, eval, r, v), s.good || (eval.EvalGood? && r.code in {200, 206}));
  }

  lemma OneJob(w: World, s: Sys, id: nat)
    requires JobsOk(w, s) && id in s.jobs
    ensures JobOk(w, s.fi, s.jobs[id])
  {
  }

  lemma BodySound(w: World, s: Sys, id: nat, chunk: string, d: Disk, wrote: nat)
    requires ItemOk(w, s) && id in s.jobs && JobOk(w, s.fi, s.jobs[id]) && Enabled(w, s, Body(id, chunk, d, wrote))
    ensures
      var st := s.jobs[id].stream.value;
      var (f, ok) := DlAddData(s.fi, chunk, d, wrote);
      Sound(w, s, s.jobs[id], f, s.jobs[id].(stream := if ok then Some(st.(next := st.next + |chunk|)) else None), s.good)
  {
    hide Agrees, DlAddData, ReaderOk, FreshOk, QueryOk;
    var st := s.jobs[id].stream.value;
    AddStores(w, s.fi, chunk, d, wrote);
    var (f, ok) := DlAddData(s.fi, chunk, d, wrote);
    var j := s.jobs[id].(stream := if ok then Some(st.(next := st.next + |chunk|)) else None);
    assert JobOk(w, f, j) by { BodyJob(w, s.fi, f, s.jobs[id], j, ok); }
    assert FreshOk(w, f) by { NotFresh(w, f); }
  }

  lemma BodyStep(w: World, s: Sys, id: nat, chunk: string, d: Disk, wrote: nat)
    requires Inv(w, s) && Enabled(w, s, Body(id, chunk, d, wrote))
    ensures Inv(w, Apply(s, Body(id, chunk, d, wrote)))
  {
    hide GoodOk, FreshOk, JobsOk, Sound, DlAddData;
    assert JobOk(w, s.fi, s.jobs[id]) by { OneJob(w, s, id); }
    BodySound(w, s, id, chunk, d, wrote);
    var st := s.jobs[id].stream.value;
    var (f, ok) := DlAddData(s.fi, chunk, d, wrote);
    JobTurn(w, s, id, f, s.jobs[id].(stream := if ok then Some(st.(next := st.next + |chunk|)) else None), s.good);
  }

  lemma NotFresh(w: World, f: Fi)
    requires Order(f.status) > 2
    ensures FreshOk(w, f)
  {
  }

  lemma BodyJob(w: World, a: Fi, b: Fi, j0: Dl, j: Dl, ok: bool)
    requires JobOk(w, a, j0) && Stores(w, a, b, ok) && GoodOk(w, a) && j0.stream.Some?
    requires ok ==> j.stream.Some? && j.stream.value.version == j0.stream.value.version && j.stream.value.next == b.sizeChecked
    requires !ok ==> j.stream.None?
    requires j == j0.(stream := j.stream)
    ensures JobOk(w, b, j)
  {
  }

  /** A turn that leaves the item alone. */
  lemma JobOnly(w: World, s: Sys, id: nat, j: Dl)
    requires Inv(w, s) && id in s.jobs && JobOk(w, s.fi, j) && (j.owner ==> s.jobs[id].owner)
    ensures Inv(w, s.(jobs := s.jobs[id := j]))
  {
    hide ReaderOk, JobOk, GoodOk, FreshOk;
    assert s.(fi := s.fi, good := s.good) == s;
    ItemOf(w, s);
    JobTurn(w, s, id, s.fi, j, s.good);
  }

  lemma RequestStep(w: World, s: Sys, id: nat, vrange: bool)
    requires Inv(w, s) && Enabled(w, s, Request(id, vrange))
    ensures Inv(w, Apply(s, Request(id, vrange)))
  {
    hide ItemOk, JobOk, ReaderOk;
    ItemOf(w, s);
    OneJob(w, s, id);
    RequestJob(w, s, s.jobs[id], vrange);
    JobOnly(w, s, id, AppendRequest(s.fi, s.jobs[id], vrange));
  }

  /** A request names the end of what is checked, or of what is cached. */
  lemma RequestJob(w: World, s: Sys, j0: Dl, vrange: bool)
    requires ItemOk(w, s) && JobOk(w, s.fi, j0)
    ensures JobOk(w, s.fi, AppendRequest(s.fi, j0, vrange))
  {
  }

  lemma LostStep(w: World, s: Sys, id: nat)
    requires Inv(w, s) && Enabled(w, s, Lost(id))
    ensures Inv(w, Apply(s, Lost(id)))
  {
    hide ItemOk, ReaderOk;
    OneJob(w, s, id);
    JobOnly(w, s, id, s.jobs[id].(query := None, stream := None));
  }

  lemma AddJobStep(w: World, s: Sys, id: nat)
    requires Inv(w, s) && Enabled(w, s, AddJob(id))
    ensures Inv(w, Apply(s, AddJob(id)))
  {
    hide Agrees, QueryOk, ReaderOk, JobOk, GoodOk;
    var t := Apply(s, AddJob(id));
    JobCounts(s.jobs, id, t.jobs[id]);
    CountedItem(w, s);
    ReadersKept(w, s, t);
    forall k | k in t.jobs ensures JobOk(w, t.fi, t.jobs[k]) {
      if k != id {
        assert JobOk(w, s.fi, s.jobs[k]);
        JobKept(w, s.fi, t.fi, s.jobs[k]);
      } else {
        NewJob(w, t.fi, t.jobs[id]);
      }
    }
  }

  lemma CountedItem(w: World, s: Sys)
    requires ItemOk(w, s)
    ensures ItemOk(w, s.(fi := RefAdd(s.fi))) && Keeps(w, s.good, s.fi, RefAdd(s.fi)) && Content(RefAdd(s.fi)) == Content(s.fi)
  {
  }

  lemma NewJob(w: World, fi: Fi, j: Dl)
    requires j == Dl(fi.volatile, false, true, None, None)
    ensures JobOk(w, fi, j)
  {
  }

  /** A job goes; with the last one, an item that is not finished fails. */
  lemma Leave(w: World, s: Sys, id: nat, f: Fi, known: bool)
    requires Inv(w, s) && id in s.jobs && s.fi.refs > 0 && (known ==> s.known || Order(f.status) >= 5)
    requires f == s.fi || (s.jobs[id].owner && Order(f.status) >= 5)
    requires Keeps(w, s.good, s.fi, f) && SamePlace(s.fi, f) && ItemOk(w, s.(fi := f)) && f.refs == s.fi.refs
    ensures Inv(w, s.(fi := RefDec(f, 503), jobs := s.jobs - {id}, known := known))
  {
    hide Agrees, QueryOk, Content, Keeps, ReaderOk, GoodOk, FreshOk, JobOk;
    var t := s.(fi := RefDec(f, 503), jobs := s.jobs - {id}, known := known);
    JobCounts(s.jobs, id, s.jobs[id]);
    LastLeaves(w, s, f);
    KeepsTrans(w, s.good, s.fi, f, t.fi);
    ReadersKept(w, s, t);
    forall k | k in t.jobs ensures JobOk(w, t.fi, t.jobs[k]) {
      assert JobOk(w, s.fi, s.jobs[k]);
      assert Content(t.fi) == Content(f) by { SameContent(f); }
      if f != s.fi { LeaveOther(w, s, id, k); }
      assert t.fi.volatile == s.fi.volatile by { assert Keeps(w, s.good, s.fi, t.fi); KeepsVolatile(w, s.good, s.fi, t.fi); }
      JobKept(w, s.fi, t.fi, s.jobs[k]);
    }
  }

  lemma KeepsVolatile(w: World, good: bool, a: Fi, b: Fi)
    requires Keeps(w, good, a, b)
    ensures b.volatile == a.volatile
  {
  }

  lemma LeaveOther(w: World, s: Sys, id: nat, k: nat)
    requires JobsOk(w, s) && id in s.jobs && k in s.jobs && k != id && s.jobs[id].owner
    ensures !s.jobs[k].owner
  {
  }

  lemma SameContent(f: Fi)
    requires f.refs > 0
    ensures Content(f.(refs := f.refs - 1)) == Content(f)
  {
  }

  lemma LastLeaves(w: World, s: Sys, f: Fi)
    requires ItemOk(w, s.(fi := f)) && f.refs > 0
    ensures ItemOk(w, s.(fi := RefDec(f, 503))) && Keeps(w, s.good, f, RefDec(f, 503))
  {
  }

  lemma KeepsTrans(w: World, good: bool, a: Fi, b: Fi, c: Fi)
    requires Keeps(w, good, a, b) && Keeps(w, good, b, c)
    ensures Keeps(w, good, a, c)
  {
    hide Agrees;
    if good {
      var v := Version(w, a);
      assert v == Version(w, b);
      forall n, l | 0 <= n < |a.inodes| && l <= a.sizeChecked && Agrees(a.inodes[n], v, l) ensures Agrees(c.inodes[n], v, l) {
        assert Agrees(b.inodes[n], v, l);
      }
    }
  }

  lemma DropStep(w: World, s: Sys, id: nat)
    requires Inv(w, s) && Enabled(w, s, DropJob(id))
    ensures Inv(w, Apply(s, DropJob(id)))
  {
    hide Inv, RefDec;
    assert ItemOk(w, s) && Keeps(w, s.good, s.fi, s.fi) by { ItemOf(w, s); }
    Leave(w, s, id, s.fi, s.known);
  }

  lemma ItemOf(w: World, s: Sys)
    requires Inv(w, s)
    ensures ItemOk(w, s) && JobsOk(w, s) && Keeps(w, s.good, s.fi, s.fi)
  {
  }

  lemma FinishSound(w: World, s: Sys, id: nat)
    requires ItemOk(w, s) && id in s.jobs && JobOk(w, s.fi, s.jobs[id]) && Enabled(w, s, Ended(id))
    ensures var f := DlFinish(s.fi, false);
      Keeps(w, s.good, s.fi, f) && SamePlace(s.fi, f) && f.refs == s.fi.refs && Order(f.status) >= 5 && ItemOk(w, s.(fi := f))
  {
    hide Agrees, QueryOk;
    NotFresh(w, DlFinish(s.fi, false));
  }

  lemma EndedStep(w: World, s: Sys, id: nat)
    requires Inv(w, s) && Enabled(w, s, Ended(id))
    ensures Inv(w, Apply(s, Ended(id)))
  {
    hide ItemOk, JobsOk, RefDec, DlFinish, Keeps;
    OneJob(w, s, id);
    FinishSound(w, s, id);
    Leave(w, s, id, DlFinish(s.fi, false), true);
  }

  /** A finished item is marked as faulty. */
  lemma KillStep(w: World, s: Sys)
    requires Inv(w, s) && Can(s, KillLast)
    ensures Inv(w, Apply(s, KillLast)) && Keeps(w, s.good, s.fi, Apply(s, KillLast).fi)
  {
    hide Agrees, QueryOk, ReaderOk, JobOk;
    var t := Apply(s, KillLast);
    FaultyItem(w, s);
    ReadersKept(w, s, t);
    forall k | k in t.jobs ensures JobOk(w, t.fi, t.jobs[k]) {
      assert JobOk(w, s.fi, s.jobs[k]);
      JobKept(w, s.fi, t.fi, s.jobs[k]);
    }
  }

  lemma FaultyItem(w: World, s: Sys)
    requires ItemOk(w, s) && Order(s.fi.status) >= 5
    ensures var f := MarkFaulty(s.fi, false);
      ItemOk(w, s.(fi := f)) && Keeps(w, s.good, s.fi, f) && SamePlace(s.fi, f) && f.status.DlError? && f.refs == s.fi.refs
  {
  }

  /** A reader's turn leaves everything else alone. */
  lemma ReaderTurn(w: World, s: Sys, id: nat, r: Reader)
    requires Inv(w, s) && ReaderOk(w, s, r)
    ensures Inv(w, s.(readers := s.readers[id := r]))
  {
    hide JobOk, FreshOk, Agrees, GoodOk;
    var t := s.(readers := s.readers[id := r]);
    forall k | k in t.readers ensures ReaderOk(w, t, t.readers[k]) {
      if k != id { assert ReaderOk(w, s, s.readers[k]); }
    }
  }

  lemma LookReader(w: World, s: Sys, r: Reader)
    requires ItemOk(w, s) && ReaderOk(w, s, r)
    requires s.fi.code == 200 && 3 <= Order(s.fi.status) <= 5 && s.fi.sizeChecked > r.pos
    ensures ReaderOk(w, s, r.(limit := s.fi.sizeChecked))
  {
  }

  lemma OpenReader(w: World, s: Sys, r: Reader)
    requires ItemOk(w, s) && ReaderOk(w, s, r) && r.pos < r.limit
    ensures ReaderOk(w, s, r.(fd := s.fi.path))
  {
  }

  lemma SendReader(w: World, s: Sys, r: Reader, n: nat)
    requires ItemOk(w, s) && ReaderOk(w, s, r) && r.fd.Some? && r.pos + n <= r.limit && r.pos + n <= |s.fi.inodes[r.fd.value]|
    ensures ReaderOk(w, s, r.(pos := r.pos + n, out := r.out + s.fi.inodes[r.fd.value][r.pos..r.pos + n]))
  {
    var v := Version(w, s.fi);
    assert s.fi.inodes[r.fd.value][r.pos..r.pos + n] == v[r.pos..r.pos + n];
    assert v[..r.pos] + v[r.pos..r.pos + n] == v[..r.pos + n];
  }

  lemma ReaderStep(w: World, s: Sys, e: Event)
    requires Inv(w, s) && Enabled(w, s, e) && (e.Attach? || e.Look? || e.Open? || e.Send?)
    ensures Inv(w, Apply(s, e))
  {
    hide ItemOk, ReaderOk, JobsOk;
    ItemOf(w, s);
    if e.Attach? {
      NewReader(w, s);
      ReaderTurn(w, s, e.id, Reader(None, 0, 0, ""));
    } else {
      var r := s.readers[e.id];
      assert ReaderOk(w, s, r);
      if e.Look? {
        LookReader(w, s, r);
        ReaderTurn(w, s, e.id, r.(limit := s.fi.sizeChecked));
      } else if e.Open? {
        OpenReader(w, s, r);
        ReaderTurn(w, s, e.id, r.(fd := s.fi.path));
      } else {
        SendReader(w, s, r, e.n);
        ReaderTurn(w, s, e.id, r.(pos := r.pos + e.n, out := r.out + s.fi.inodes[r.fd.value][r.pos..r.pos + e.n]));
      }
    }
  }

  lemma NewReader(w: World, s: Sys)
    ensures ReaderOk(w, s, Reader(None, 0, 0, ""))
  {
  }

  // ---------------------------------------------------------------- runs

  lemma Counted(w: World, s: Sys)
    requires Inv(w, s)
    ensures Usable(s)
  {
    if id :| id in s.jobs { JobCounts(s.jobs, id, s.jobs[id]); }
  }

  ghost predicate SpoiltBy(w: World, s: Sys, e: Event) { e.Answer? && Spoils(w, s, e.id, e.r) }

  /** Every event keeps the invariant. */
  lemma Step(w: World, s: Sys, e: Event)
    requires Inv(w, s) && Enabled(w, s, e) && !SpoiltBy(w, s, e)
    ensures Inv(w, Apply(s, e))
  {
    hide Inv, Apply, Can, Faithful;
    match e
    case AddJob(id) => AddJobStep(w, s, id);
    case DropJob(id) => DropStep(w, s, id);
    case Request(id, vrange) => RequestStep(w, s, id, vrange);
    case Answer(id, r, v) => AnswerStep(w, s, id, r, v);
    case Body(id, chunk, d, wrote) => BodyStep(w, s, id, chunk, d, wrote);
    case Ended(id) => EndedStep(w, s, id);
    case Lost(id) => LostStep(w, s, id);
    case KillLast => KillStep(w, s);
    case Attach(id) => ReaderStep(w, s, e);
    case Look(id) => ReaderStep(w, s, e);
    case Open(id) => ReaderStep(w, s, e);
    case Send(id, n) => ReaderStep(w, s, e);
  }

  /** And it keeps what the item has settled: the version, the bytes that are checked, the end. */
  lemma StepKeeps(w: World, s: Sys, e: Event)
    requires Inv(w, s) && Enabled(w, s, e) && !SpoiltBy(w, s, e)
    ensures Keeps(w, s.good, s.fi, Apply(s, e).fi) && (s.good ==> Apply(s, e).good)
  {
    hide JobOk, ReaderOk, GoodOk, FreshOk, DlAddData, CheckAndSaveHeader, DlFinish, Keeps, Spoils, Agrees, ItemOk, Honest;
    ItemOf(w, s);
    match e
    case AddJob(id) => CountedItem(w, s);
    case DropJob(id) => LastLeaves(w, s, s.fi);
    case Answer(id, r, v) =>
      OneJob(w, s, id);
      AnswerSound(w, s, id, r, v);
    case Body(id, chunk, d, wrote) =>
      OneJob(w, s, id);
      BodySound(w, s, id, chunk, d, wrote);
    case Ended(id) =>
      OneJob(w, s, id);
      FinishSound(w, s, id);
      LastLeaves(w, s, DlFinish(s.fi, false));
      KeepsTrans(w, s.good, s.fi, DlFinish(s.fi, false), Apply(s, e).fi);
    case KillLast => KillStep(w, s);
    case _ =>
  }

  /** What can happen, one event after the other. */
  ghost predicate Possible(s: Sys, es: seq<Event>)
    decreases |es|
  {
    es == [] || (Can(s, es[0]) && Possible(Apply(s, es[0]), es[1..]))
  }

  ghost function Run(s: Sys, es: seq<Event>): Sys
    requires Possible(s, es)
    decreases |es|
  {
    if es == [] then s else Run(Apply(s, es[0]), es[1..])
  }

  /** The server is honest throughout. */
  ghost predicate AllFaithful(w: World, s: Sys, es: seq<Event>)
    requires Possible(s, es)
    decreases |es|
  {
    es == [] || (Faithful(w, s, es[0]) && AllFaithful(w, Apply(s, es[0]), es[1..]))
  }

  /** No answer is a probe answer that spoils the item. */
  ghost predicate NoSpoils(w: World, s: Sys, es: seq<Event>)
    requires Possible(s, es)
    decreases |es|
  {
    es == [] || (!SpoiltBy(w, s, es[0]) && NoSpoils(w, Apply(s, es[0]), es[1..]))
  }

  lemma {:induction false} RunKeeps(w: World, s: Sys, es: seq<Event>)
    requires Inv(w, s) && Possible(s, es) && AllFaithful(w, s, es) && NoSpoils(w, s, es)
    ensures var t := Run(s, es); Inv(w, t) && Keeps(w, s.good, s.fi, t.fi) && (s.good ==> t.good)
    decreases |es|
  {
    hide Inv, Keeps, Apply, Can, Faithful, SpoiltBy;
    if es == [] {
      ItemOf(w, s);
    } else {
      Step(w, s, es[0]);
      StepKeeps(w, s, es[0]);
      var m := Apply(s, es[0]);
      RunKeeps(w, m, es[1..]);
      var t := Run(m, es[1..]);
      if s.good {
        KeepsTrans(w, true, s.fi, m.fi, t.fi);
      } else {
        KeepsWeaker(w, m.good, m.fi, t.fi);
        KeepsTrans(w, false, s.fi, m.fi, t.fi);
      }
    }
  }

  lemma KeepsWeaker(w: World, good: bool, a: Fi, b: Fi)
    requires Keeps(w, good, a, b)
    ensures Keeps(w, false, a, b)
  {
  }

  /** What a run is to have done: the checked part of the file is a prefix of one version of the
      remote one, which is settled with the first accepted answer and is the same from then on;
      the checked part has not shrunk; every reader has got a prefix of that version; and a file
      that is complete is all of it. */
  ghost predicate OneVersion(w: World, s: Sys, t: Sys) {
    && (s.good ==> t.good && Version(w, t.fi) == Version(w, s.fi) && s.fi.sizeChecked <= t.fi.sizeChecked)
    && (t.good && Order(t.fi.status) <= 5 ==>
          0 <= t.fi.sizeChecked <= |Content(t.fi)| && t.fi.sizeChecked <= |Version(w, t.fi)|
          && Content(t.fi)[..t.fi.sizeChecked] == Version(w, t.fi)[..t.fi.sizeChecked])
    && (t.fi.status.Complete? && t.fi.code == 200 ==>
          t.fi.sizeChecked == |Version(w, t.fi)| && Version(w, t.fi) <= Content(t.fi))
    && (forall id :: id in t.readers ==>
          t.readers[id].out <= Version(w, t.fi) && (t.readers[id].out != "" ==> |t.readers[id].out| <= t.fi.sizeChecked))
  }

  /** Single-version delivery: from an honest server, in every run without a spoiling probe answer,
      and however often the remote file is replaced. */
  lemma SingleVersionDelivery(w: World, s: Sys, es: seq<Event>)
    requires Inv(w, s) && Possible(s, es) && AllFaithful(w, s, es) && NoSpoils(w, s, es)
    ensures OneVersion(w, s, Run(s, es))
  {
    hide JobOk, FreshOk, Keeps;
    RunKeeps(w, s, es);
    var t := Run(s, es);
    if s.good { KeepsVersion(w, s.fi, t.fi); }
    if t.good && Order(t.fi.status) <= 5 {
      var n := t.fi.sizeChecked;
      assert Content(t.fi)[..n] == Version(w, t.fi)[..n];
    }
    forall id | id in t.readers ensures t.readers[id].out <= Version(w, t.fi) && (t.readers[id].out != "" ==> |t.readers[id].out| <= t.fi.sizeChecked) {
      assert ReaderOk(w, t, t.readers[id]);
    }
  }

  lemma KeepsVersion(w: World, a: Fi, b: Fi)
    requires Keeps(w, true, a, b)
    ensures Version(w, b) == Version(w, a) && a.sizeChecked <= b.sizeChecked
  {
  }

  // ---------------------------------------------------------------- where it starts

  /** A new item for what another one has left on disk. */
  function Reopened(disk: Fi, volatile: bool): Fi {
    Fi(Fresh, -1, -1, -1, None, 0, false, volatile, Keep, 0, disk.inodes, disk.path, None, 0, disk.head)
  }

  function Opened(disk: Fi, volatile: bool): Sys {
    var f := Setup(Reopened(disk, volatile));
    Sys(f, map[], map[], f.status.Complete?, false, false)
  }

  /** A file that counts as complete has to be the version its head names. One that may be resumed
      has to be a prefix of it; that is one with a date, which is not longer than its head says
      (or may be, if it can change). */
  ghost predicate StartOk(w: World, disk: Fi, volatile: bool) {
    disk.head.Stored? ==>
      var c, h := Content(disk), disk.head;
      if !volatile && disk.path.Some? && h.contLen == |c| then c == w(h.date)
      else (volatile || h.contLen < 0 || h.contLen >= |c|) && h.date.Some? && c != "" ==> c <= w(h.date)
  }

  /** Exactly then the runs can start from it. */
  lemma SetupStartsIff(w: World, disk: Fi, volatile: bool)
    requires FilesExist(disk)
    ensures Inv(w, Opened(disk, volatile)) <==> StartOk(w, disk, volatile)
  {
    var c := Content(disk);
    if disk.head.Stored? {
      PrefixAgrees(c, w(disk.head.date));
      assert Content(Opened(disk, volatile).fi) == c;
    }
  }

  lemma PrefixAgrees(c: string, text: string)
    ensures Agrees(c, text, |c|) <==> c <= text
    ensures c == text <==> c <= text && |c| == |text|
  {
  }
}
