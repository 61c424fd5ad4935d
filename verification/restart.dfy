/** From one run of the server to the next: what an item leaves on disk is what the next one starts
    from. When it is a good start again, and that delivery goes on over any number of runs. */
module Restart {
  import opened Text
  import opened ItemStatus
  import opened RemoteStatus
  import opened FileItem
  import opened SingleVersion
  import H = StoredHead

  /** A good start: the length that is stored, if there is one, is that of the version the head
      names, and a file that may be taken for a part of it is one. */
  ghost predicate DiskOk(w: World, disk: Fi) {
    disk.head.Stored? ==>
      var h := disk.head;
      (h.contLen < 0 || h.contLen == |w(h.date)|) && (h.date.Some? || h.contLen >= 0 ==> Content(disk) <= w(h.date))
  }

  lemma GoodStart(w: World, disk: Fi, volatile: bool)
    requires FilesExist(disk) && DiskOk(w, disk)
    ensures Inv(w, Opened(disk, volatile))
  {
    SetupStartsIff(w, disk, volatile);
  }

  // ---------------------------------------------------------------- the two ways to leave a bad one

  /** A download that has stored its head, and is given up there: a good start exactly if the length
      that was stored is right, the file is not longer than the version, and whatever is behind the
      checked part belongs to it, too. */
  lemma GivenUpIff(w: World, fi: Fi, volatile: bool)
    requires GoodOk(w, fi) && Order(fi.status) <= 4 && FilesExist(fi) && fi.head.Stored? && fi.head.date == fi.date
    requires fi.date.Some? || fi.head.contLen >= 0
    ensures DiskOk(w, Reopened(fi, volatile)) <==>
      && (fi.head.contLen < 0 || fi.head.contLen == |Version(w, fi)|)
      && |Content(fi)| <= |Version(w, fi)| && forall i :: fi.sizeChecked <= i < |Content(fi)| ==> Content(fi)[i] == Version(w, fi)[i]
    ensures NewHead(w, fi) && |Content(fi)| <= fi.sizeChecked ==> DiskOk(w, Reopened(fi, volatile))
  {
    var c, v := Content(fi), Version(w, fi);
    assert Content(Reopened(fi, volatile)) == c;
    if |c| <= |v| && forall i :: fi.sizeChecked <= i < |c| ==> c[i] == v[i] {
      assert c == v[..|c|];
    }
  }

  /** An answer that is neither a file nor a part of one is taken for an item that was not served
      yet, and ends it. Its head is stored, with the start of the range as the length. */
  predicate Refuses(fi: Fi, j: Dl, r: Response) {
    && j.query.Some? && Order(fi.status) <= 2 && !j.owner
    && r.code !in {200, 206, 416} && (IsRedirect(r.code) ==> r.location)
  }

  lemma RefusedItem(fi: Fi, j: Dl, r: Response)
    requires Refuses(fi, j, r) && fi.sizeChecked == -1 && fi.destroy.Keep?
    ensures var f, len := CheckAndSaveHeader(fi, j, r).0, if j.query.value.used >= 0 then j.query.value.used else -1;
      f.status.Complete? && f.head == Stored(len, r.date) && Content(f) == Content(fi) && f.path == fi.path && f.inodes == fi.inodes
      && f.contLen == f.sizeChecked == len && f.date == r.date && f.fd == fi.fd && f.destroy.Keep?
  {
  }

  /** So the next run takes the part that is there for all of the file exactly if the request was
      for what follows it. */
  lemma PartTakenIff(fi: Fi, j: Dl, r: Response)
    requires Refuses(fi, j, r) && fi.sizeChecked == -1 && fi.destroy.Keep? && FilesExist(fi)
    requires fi.path.Some? && fi.sizeInitial == |Content(fi)|
    ensures var t := Opened(CheckAndSaveHeader(fi, j, r).0, false).fi;
      && (t.status.Complete? <==> j.query.value.used == fi.sizeInitial)
      && (t.status.Complete? ==> t.code == 200 && t.sizeChecked == fi.sizeInitial)
  {
    hide CheckAndSaveHeader;
    RefusedItem(fi, j, r);
  }

  /** And it is a good start exactly if that length and date are right for the part. */
  lemma RefusedIff(w: World, fi: Fi, j: Dl, r: Response)
    requires Refuses(fi, j, r) && fi.sizeChecked == -1 && fi.destroy.Keep?
    ensures var used := j.query.value.used;
      DiskOk(w, CheckAndSaveHeader(fi, j, r).0) <==>
        (used < 0 || used == |w(r.date)|) && (r.date.Some? || used >= 0 ==> Content(fi) <= w(r.date))
  {
    hide CheckAndSaveHeader;
    RefusedItem(fi, j, r);
  }

  // ---------------------------------------------------------------- what a run has done to the disk

  /** The head is the old one, and the file is, or is empty. */
  predicate OldHead(d: Fi, fi: Fi) {
    fi.head == d.head && (Content(fi) == Content(d) || Content(fi) == "")
  }

  /** The head names the version of the item. */
  ghost predicate NewHead(w: World, fi: Fi) {
    fi.head.Stored? && fi.head.date == fi.date && (fi.head.contLen == -1 || fi.head.contLen == |Version(w, fi)|)
  }

  /** The head is that of an answer which says nothing about the file. */
  predicate NoHead(fi: Fi) {
    fi.head == Stored(-1, fi.date) && fi.contLen == -1 && fi.sizeChecked == -1 && Order(fi.status) >= 5
    && (fi.date.None? || Content(fi) == "")
  }

  ghost predicate Past(w: World, d: Fi, fi: Fi, good: bool, known: bool) {
    && fi.destroy.Keep?
    && (Order(fi.status) <= 2 ==> OldHead(d, fi) && (fi.sizeInitial > 0 ==> fi.sizeInitial == |Content(fi)|))
    && (if good then OldHead(d, fi) || NewHead(w, fi) else OldHead(d, fi) || NoHead(fi))
    && (good && !OldHead(d, fi) && !fi.status.Complete? ==> fi.fd.Some? || known)
    && (good && fi.fd.Some? && Order(fi.status) <= 5 ==> NewHead(w, fi) && |Content(fi)| <= |Version(w, fi)|)
    && (fi.status.Complete? ==> if good then fi.contLen >= 0 else NoHead(fi))
  }

  lemma PastStarts(w: World, d: Fi, volatile: bool)
    requires FilesExist(d)
    ensures var s := Opened(d, volatile); Past(w, d, s.fi, s.good, s.known)
  {
  }

  /** The condition on how a run ends, as a caller can check it: no new head stands over bytes that
      were not checked. */
  predicate Leftover(fi: Fi, known: bool) {
    |Content(fi)| > fi.sizeChecked && if fi.status.Complete? then fi.fd.None? else fi.fd.Some? || known
  }

  lemma AgreesPrefix(w: World, fi: Fi)
    requires GoodOk(w, fi) && |Content(fi)| <= fi.sizeChecked
    ensures Content(fi) <= Version(w, fi)
  {
  }

  lemma CompletePrefix(w: World, fi: Fi)
    requires GoodOk(w, fi) && fi.status.Complete? && |Content(fi)| <= |Version(w, fi)|
    ensures Content(fi) <= Version(w, fi)
  {
  }

  /** The disk a run leaves is a good start exactly if a new head does not stand over a file that is
      no part of its version. */
  lemma EndsWellIff(w: World, d: Fi, s: Sys)
    requires ItemOk(w, s) && Past(w, d, s.fi, s.good, s.known) && DiskOk(w, d)
    ensures DiskOk(w, s.fi) <==>
      (s.good && NewHead(w, s.fi) && (s.fi.head.date.Some? || s.fi.head.contLen >= 0) ==> Content(s.fi) <= Version(w, s.fi))
    ensures !Leftover(s.fi, s.known) ==> DiskOk(w, s.fi)
  {
    hide GoodOk, FreshOk, Agrees;
    var fi := s.fi;
    if OldHead(d, fi) {
      assert DiskOk(w, fi);
    } else if s.good && !Leftover(fi, s.known) {
      if |Content(fi)| <= fi.sizeChecked { AgreesPrefix(w, fi); } else { CompletePrefix(w, fi); }
    }
  }

  // ---------------------------------------------------------------- kept by every event

  /** An error that ends an item that was under way. */
  lemma ErrorPast(w: World, d: Fi, fi: Fi, good: bool, known: bool, code: int, mode: Destroy)
    requires Past(w, d, fi, good, known) && Order(fi.status) <= 4
    ensures Past(w, d, SetError(fi, code, mode), good, known)
  {
  }

  lemma StartPast(w: World, d: Fi, fi: Fi, good: bool, known: bool, date: Option<Date>, used: int, announced: int)
    requires Past(w, d, fi, good, known) && FilesExist(fi) && Order(fi.status) <= 4 && (3 <= Order(fi.status) ==> good)
    requires Order(fi.status) <= 2 ==> !good && fi.sizeChecked == -1 && fi.fd.None?
    ensures var (f, ok) := DlStarted(fi, date, 200, used, announced); Past(w, d, f, good || ok, known)
    ensures var (f, ok) := DlStarted(fi, date, 200, used, announced); !ok ==> 3 <= Order(fi.status)
  {
  }

  lemma ProbePast(w: World, d: Fi, fi: Fi, good: bool, known: bool)
    requires Past(w, d, fi, good, known) && Order(fi.status) <= 4 && fi.sizeInitial > 0 && fi.sizeInitial == |Version(w, fi)|
    requires (3 <= Order(fi.status) ==> good) && (Order(fi.status) <= 2 ==> fi.fd.None?)
    ensures Past(w, d, DlFinish(fi.(sizeChecked := fi.sizeInitial, contLen := fi.sizeInitial), true), true, known)
  {
  }

  lemma RefusalPast(w: World, d: Fi, fi: Fi, known: bool, j: Dl, r: Response)
    requires Past(w, d, fi, false, known) && Refuses(fi, j, r) && fi.sizeChecked == -1
    requires j.query.value.used < 0 && (r.date.None? || Content(fi) == "")
    ensures Past(w, d, CheckAndSaveHeader(fi, j, r).0, false, known)
  {
    hide CheckAndSaveHeader;
    RefusedItem(fi, j, r);
  }

  /** An answer that leaves a bad start, or might: a caller can tell it from the request. */
  predicate BadRefusal(s: Sys, e: Event) {
    && e.Answer? && e.id in s.jobs && Refuses(s.fi, s.jobs[e.id], e.r)
    && (s.jobs[e.id].query.value.used >= 0 || (e.r.date.Some? && Content(s.fi) != ""))
  }

  lemma ProbedLength(w: World, s: Sys, id: nat, r: Response, v: Option<Date>)
    requires ItemOk(w, s) && id in s.jobs && JobOk(w, s.fi, s.jobs[id]) && s.jobs[id].query.Some?
    requires s.jobs[id].owner || Order(s.fi.status) <= 2
    requires Order(s.fi.status) <= 4 && r.code == 206 && Honest(w, s.jobs[id].query.value, r, v)
    requires IsProbeAnswer(s.fi, r) && !Spoils(w, s, id, r)
    ensures s.fi.sizeInitial == |Version(w, s.fi)|
  {
    ProbeAnswer(w, s, id, r, v);
    hide Honest, JobOk, Agrees, Keeps, FreshOk;
  }

  lemma AnswerPast(w: World, d: Fi, s: Sys, id: nat, r: Response, v: Option<Date>)
    requires ItemOk(w, s) && id in s.jobs && JobOk(w, s.fi, s.jobs[id]) && s.jobs[id].query.Some?
    requires Honest(w, s.jobs[id].query.value, r, v) && !Spoils(w, s, id, r) && !BadRefusal(s, Answer(id, r, v))
    requires Past(w, d, s.fi, s.good, s.known)
    ensures var (f, j, eval) := CheckAndSaveHeader(s.fi, s.jobs[id], r);
      Past(w, d, f, s.good || (eval.EvalGood? && r.code in {200, 206}), s.known)
  {
    var fi, j0 := s.fi, s.jobs[id];
    assert Order(fi.status) <= 2 ==> !s.good && fi.sizeChecked == -1 && fi.fd.None? by { hide Agrees, JobOk; }
    assert 3 <= Order(fi.status) <= 4 ==> s.good by { hide GoodOk, FreshOk, JobOk; }
    assert FilesExist(fi) by { hide GoodOk, FreshOk, JobOk; }
    assert j0.allow by { hide ItemOk, QueryOk, StreamOk; }
    hide Honest, ItemOk, JobOk, Spoils, Past, DlFinish, DlStarted, SetError, Content;
    if Order(fi.status) >= 5 || (!j0.owner && Order(fi.status) > 2) {
    } else if r.code == 200 {
      StartPast(w, d, fi, s.good, s.known, r.date, 0, r.contLen);
    } else if r.code == 206 {
      ErrorPast(w, d, fi, s.good, s.known, 503, Keep);
      if r.range.Bytes? {
        if IsProbeAnswer(fi, r) {
          ProbedLength(w, s, id, r, v);
          ProbePast(w, d, fi, s.good, s.known);
        } else {
          StartPast(w, d, fi, s.good, s.known, r.date, j0.query.value.used, r.range.total);
        }
      }
    } else if r.code == 416 {
      ErrorPast(w, d, fi, s.good, s.known, 503, Truncate);
      EmptyPast(w, d, fi, s.good, s.known);
    } else if j0.owner || (IsRedirect(r.code) && !r.location) {
      ErrorPast(w, d, fi, s.good, s.known, 503, Keep);
    } else {
      RefusalPast(w, d, fi, s.known, j0, r);
    }
  }

  lemma EmptyPast(w: World, d: Fi, fi: Fi, good: bool, known: bool)
    requires Past(w, d, fi, good, known)
    ensures Past(w, d, fi.(sizeInitial := 0, mustReplace := true), good, known)
  {
  }

  // ---------------------------------------------------------------- storing

  /** Opening the file leaves the old head over what was there, or over nothing; or it has stored
      the new one over a file that is not too long. */
  ghost predicate Opening(w: World, d: Fi, a: Fi, b: Fi, ok: bool) {
    && FilesExist(b) && b.destroy == a.destroy && b.date == a.date && b.contLen == a.contLen && (ok ==> 3 <= Order(b.status) <= 4)
    && if ok then b.fd.Some? && b.fd == b.path && NewHead(w, b) && |Content(b)| <= |Version(w, b)|
       else b.status.DlError? && OldHead(d, b)
  }

  predicate Untouched(d: Fi, a: Fi, b: Fi) {
    FilesExist(b) && b.head == a.head && b.destroy == a.destroy && b.date == a.date && b.contLen == a.contLen && b.sizeChecked == a.sizeChecked && OldHead(d, b)
  }

  lemma ReplaceUntouched(d: Fi, fi: Fi, x: Disk)
    requires FilesExist(fi) && OldHead(d, fi) && fi.destroy.Keep?
    ensures var (f, ok) := ReplaceFile(fi, x);
      Untouched(d, fi, f) && if ok then f.fd.Some? && f.fd == f.path && Content(f) == "" && f.status == fi.status else f.status.DlError?
  {
  }

  lemma InPlaceUntouched(d: Fi, fi: Fi, x: Disk)
    requires FilesExist(fi) && OldHead(d, fi) && fi.destroy.Keep?
    ensures var (f, ok) := OpenInPlace(fi, x);
      Untouched(d, fi, f) && if ok then f.fd.Some? && f.fd == f.path && f.status == fi.status else f.status.DlError?
  {
    ReplaceUntouched(d, fi, x);
    hide ReplaceFile;
  }

  lemma FinishPast(w: World, d: Fi, fi: Fi, x: Disk)
    requires FilesExist(fi) && OldHead(d, fi) && fi.destroy.Keep? && fi.fd.Some? && fi.fd == fi.path
    requires LengthOk(w, fi)
    ensures var (f, ok) := FinishOpen(fi, x); Opening(w, d, fi, f, ok)
  {
    ReplaceUntouched(d, fi, x);
    hide ReplaceFile;
  }

  lemma OpenPast(w: World, d: Fi, fi: Fi, x: Disk)
    requires FilesExist(fi) && OldHead(d, fi) && fi.destroy.Keep? && 3 <= Order(fi.status) <= 4
    requires LengthOk(w, fi)
    ensures var (f, ok) := SafeOpenOutFile(fi, x); Opening(w, d, fi, f, ok)
  {
    var f := fi.(fd := None);
    ReplaceUntouched(d, f, x);
    InPlaceUntouched(d, f, x);
    hide ReplaceFile, OpenInPlace, FinishOpen, Content;
    assert FilesExist(f) && OldHead(d, f) by { SameFile(fi); }
    var (g, ok) := if f.mustReplace || f.contLen < 0 then ReplaceFile(f, x) else OpenInPlace(f, x);
    if ok { FinishPast(w, d, g, x); }
  }

  lemma SameFile(fi: Fi)
    ensures Content(fi.(fd := None)) == Content(fi)
  {
  }

  lemma WritePast(w: World, fi: Fi, chunk: string)
    requires FilesExist(fi) && fi.fd.Some? && fi.fd == fi.path && NewHead(w, fi) && |Content(fi)| <= |Version(w, fi)|
    requires fi.pos <= |Content(fi)| && fi.pos + |chunk| <= |Version(w, fi)|
    ensures var f := Write(fi, chunk);
      && NewHead(w, f) && |Content(f)| <= |Version(w, f)| && f.destroy == fi.destroy && f.status == fi.status && f.fd == fi.fd
      && f.contLen == fi.contLen
  {
    OverwriteLength(Content(fi), fi.pos, chunk);
    hide Overwrite;
  }

  lemma OverwriteLength(c: string, at: nat, chunk: string)
    requires at <= |c|
    ensures var n := |Overwrite(c, at, chunk)|; n == |c| || n == at + |chunk|
  {
  }

  lemma BodyPast(w: World, d: Fi, fi: Fi, known: bool, chunk: string, x: Disk, wrote: nat)
    requires Past(w, d, fi, true, known) && !known && FilesExist(fi) && GoodOk(w, fi) && 3 <= Order(fi.status) <= 4
    requires fi.sizeChecked + |chunk| <= |Version(w, fi)|
    ensures Past(w, d, DlAddData(fi, chunk, x, wrote).0, true, known)
  {
    hide Agrees, Overwrite, Write, SafeOpenOutFile, Content;
    if fi.fd.None? { OpenPast(w, d, fi, x); OpenChecked(w, fi, x); OpenedAt(w, fi, x); }
    var (f, ok) := if fi.fd.None? then SafeOpenOutFile(fi, x) else (fi, true);
    if ok {
      var part := if wrote < |chunk| then chunk[..wrote] else chunk;
      assert f.pos == fi.sizeChecked;
      WritePast(w, f, part);
    }
  }

  lemma OpenedAt(w: World, fi: Fi, x: Disk)
    requires FilesExist(fi) && fi.sizeChecked >= 0
    ensures var (f, ok) := SafeOpenOutFile(fi, x); ok ==> f.pos == fi.sizeChecked <= |Content(f)|
  {
  }

  lemma EndedPast(w: World, d: Fi, s: Sys, id: nat)
    requires ItemOk(w, s) && Past(w, d, s.fi, s.good, s.known) && id in s.jobs && JobOk(w, s.fi, s.jobs[id]) && Enabled(w, s, Ended(id))
    ensures Past(w, d, DlFinish(s.fi, false), s.good, true) && DlFinish(s.fi, false).refs == s.fi.refs
  {
    hide Agrees, QueryOk, FreshOk;
  }

  lemma LeavePast(w: World, d: Fi, fi: Fi, good: bool, known: bool)
    requires Past(w, d, fi, good, known) && fi.refs > 0
    ensures Past(w, d, RefDec(fi, 503), good, known)
  {
    var f := fi.(refs := fi.refs - 1);
    assert Past(w, d, f, good, known);
    if f.refs == 0 && Order(f.status) < 5 { ErrorPast(w, d, f, good, known, 503, f.destroy); }
  }

  lemma StepPast(w: World, d: Fi, s: Sys, e: Event)
    requires Inv(w, s) && Enabled(w, s, e) && !SpoiltBy(w, s, e) && !BadRefusal(s, e) && Past(w, d, s.fi, s.good, s.known)
    ensures Past(w, d, Apply(s, e).fi, Apply(s, e).good, Apply(s, e).known)
  {
    hide Past, CheckAndSaveHeader, DlAddData, DlFinish, RefDec, ItemOk, JobOk, Spoils, BadRefusal;
    ItemOf(w, s);
    match e
    case AddJob(id) => AddPast(w, d, s.fi, s.good, s.known);
    case DropJob(id) => LeavePast(w, d, s.fi, s.good, s.known);
    case Answer(id, r, v) =>
      OneJob(w, s, id);
      AnswerPast(w, d, s, id, r, v);
    case Body(id, chunk, x, wrote) =>
      OneJob(w, s, id);
      BodyReady(w, s, id, chunk, x, wrote);
      BodyPast(w, d, s.fi, s.known, chunk, x, wrote);
    case Ended(id) =>
      OneJob(w, s, id);
      EndedPast(w, d, s, id);
      LeavePast(w, d, DlFinish(s.fi, false), s.good, true);
    case KillLast => FaultyPast(w, d, s.fi, s.good, s.known);
    case _ =>
  }

  /** Marking an item as faulty leaves the disk alone: its mode stays. */
  lemma FaultyPast(w: World, d: Fi, fi: Fi, good: bool, known: bool)
    requires Past(w, d, fi, good, known) && known && Order(fi.status) >= 5
    ensures Past(w, d, MarkFaulty(fi, false), good, known)
  {
  }

  lemma AddPast(w: World, d: Fi, fi: Fi, good: bool, known: bool)
    requires Past(w, d, fi, good, known)
    ensures Past(w, d, RefAdd(fi), good, known)
  {
  }

  lemma BodyReady(w: World, s: Sys, id: nat, chunk: string, x: Disk, wrote: nat)
    requires ItemOk(w, s) && id in s.jobs && JobOk(w, s.fi, s.jobs[id]) && Enabled(w, s, Body(id, chunk, x, wrote))
    ensures s.good && FilesExist(s.fi) && GoodOk(w, s.fi) && 3 <= Order(s.fi.status) <= 4
    ensures s.fi.sizeChecked + |chunk| <= |Version(w, s.fi)|
  {
    hide GoodOk, FreshOk, QueryOk;
    assert GoodOk(w, s.fi);
  }

  // ---------------------------------------------------------------- one run of the server

  ghost predicate NoBadRefusal(s: Sys, es: seq<Event>)
    requires Possible(s, es)
    decreases |es|
  {
    es == [] || (!BadRefusal(s, es[0]) && NoBadRefusal(Apply(s, es[0]), es[1..]))
  }

  lemma {:induction false} RunPast(w: World, d: Fi, s: Sys, es: seq<Event>)
    requires Inv(w, s) && Past(w, d, s.fi, s.good, s.known)
    requires Possible(s, es) && AllFaithful(w, s, es) && NoSpoils(w, s, es) && NoBadRefusal(s, es)
    ensures var t := Run(s, es); Inv(w, t) && Past(w, d, t.fi, t.good, t.known)
    decreases |es|
  {
    hide Inv, Past, Apply, Can, Faithful, SpoiltBy, BadRefusal;
    if es != [] {
      Step(w, s, es[0]);
      StepPast(w, d, s, es[0]);
      RunPast(w, d, Apply(s, es[0]), es[1..]);
    }
  }

  /** A run without refusals and spoiling answers leaves a good start again exactly if it does not
      leave a new head over a file that is no part of its version; and that it does not do if it
      leaves nothing unchecked under one. */
  lemma RunEndsWellIff(w: World, disk: Fi, volatile: bool, es: seq<Event>)
    requires FilesExist(disk) && DiskOk(w, disk)
    requires var s := Opened(disk, volatile);
      Possible(s, es) && AllFaithful(w, s, es) && NoSpoils(w, s, es) && NoBadRefusal(s, es)
    ensures var t := Run(Opened(disk, volatile), es);
      && FilesExist(t.fi)
      && (DiskOk(w, t.fi) <==>
           (t.good && NewHead(w, t.fi) && (t.fi.head.date.Some? || t.fi.head.contLen >= 0) ==> Content(t.fi) <= Version(w, t.fi)))
      && (!Leftover(t.fi, t.known) ==> DiskOk(w, t.fi))
  {
    hide Past, DiskOk, NewHead, Possible, AllFaithful, NoSpoils, NoBadRefusal, JobsOk, ReaderOk;
    GoodStart(w, disk, volatile);
    PastStarts(w, disk, volatile);
    RunPast(w, disk, Opened(disk, volatile), es);
    EndsWellIff(w, disk, Run(Opened(disk, volatile), es));
  }

  // ---------------------------------------------------------------- any number of runs

  /** In every run the server is honest, no answer spoils the item or is refused for a part of it,
      and no run but the last ends with unchecked bytes under a new head. */
  ghost predicate AllClean(w: World, disk: Fi, volatile: bool, sessions: seq<seq<Event>>)
    decreases |sessions|
  {
    sessions == [] ||
      var s, es := Opened(disk, volatile), sessions[0];
      && Possible(s, es) && AllFaithful(w, s, es) && NoSpoils(w, s, es) && NoBadRefusal(s, es)
      && (|sessions| > 1 ==> !Leftover(Run(s, es).fi, Run(s, es).known))
      && AllClean(w, Run(s, es).fi, volatile, sessions[1..])
  }

  /** Every run starts from the disk the one before has left, and delivers one version. */
  ghost predicate AllDeliver(w: World, disk: Fi, volatile: bool, sessions: seq<seq<Event>>)
    requires AllClean(w, disk, volatile, sessions)
    decreases |sessions|
  {
    sessions == [] ||
      var s := Opened(disk, volatile);
      OneVersion(w, s, Run(s, sessions[0])) && AllDeliver(w, Run(s, sessions[0]).fi, volatile, sessions[1..])
  }

  /** Delivery over any number of runs of the server. */
  lemma {:induction false} DeliveryAcrossRuns(w: World, disk: Fi, volatile: bool, sessions: seq<seq<Event>>)
    requires FilesExist(disk) && DiskOk(w, disk) && AllClean(w, disk, volatile, sessions)
    ensures AllDeliver(w, disk, volatile, sessions)
    decreases |sessions|
  {
    hide DiskOk, OneVersion, Leftover, Opened, Run, Possible, AllFaithful, NoSpoils, NoBadRefusal, NewHead;
    if sessions != [] {
      GoodStart(w, disk, volatile);
      SingleVersionDelivery(w, Opened(disk, volatile), sessions[0]);
      RunEndsWellIff(w, disk, volatile, sessions[0]);
      if |sessions| > 1 { DeliveryAcrossRuns(w, Run(Opened(disk, volatile), sessions[0]).fi, volatile, sessions[1..]); }
    }
  }

  // ---------------------------------------------------------------- a head that is missing

  /** What Setup learns from the text of the head file; `stamp` reads dates. */
  function HeadFileOf(file: Option<string>, norm: string -> string, stamp: string -> Option<Date>): HeadFile {
    var (h, ok) := H.Parse(file, H.UNSET, norm);
    if !ok then Unusable else if file.None? then Missing else Stored(if h.contLen < 0 then -1 else h.contLen, stamp(h.date))
  }

  /** The head that was stored is the one that is found again. */
  lemma HeadSurvives(h: H.Head, norm: string -> string, stamp: string -> Option<Date>)
    requires H.Storable(h)
    ensures HeadFileOf(Some(H.Store(h)), norm, stamp) == Stored(if h.contLen < 0 then -1 else h.contLen, stamp(TrimBoth(h.date)))
    ensures HeadFileOf(None, norm, stamp) == Missing
  {
    hide H.Store, TrimBoth;
    H.ReadsBack(h, norm);
    hide H.Parse;
  }

  /** What is there when the first byte of a full answer is to be stored, with nothing going wrong. */
  function FirstStored(disk: Fi, volatile: bool, date: Option<Date>, len: nat): Fi
    requires FilesExist(disk)
  {
    SafeOpenOutFile(DlStarted(Opened(disk, volatile).fi, date, 200, 0, len).0, Disk(true, true, true, true, true, true)).0
  }

  /** A missing head file is taken for a good one that says nothing. The file under it is not
      resumed, but not replaced either: a new version that is no shorter is written over it in
      place, and its old bytes stand under the new head from the start. With a head file that
      cannot be read, the file is replaced. */
  lemma MissingHead(disk: Fi, volatile: bool, date: Option<Date>, len: nat)
    requires FilesExist(disk) && disk.path.Some? && |Content(disk)| <= len && !disk.head.Stored?
    ensures var f, g := Opened(disk, volatile).fi, FirstStored(disk, volatile, date, len);
      && f.status.Inited? && g.head == Stored(len, date) && g.sizeChecked == 0
      && (disk.head.Missing? ==>
            (forall vrange :: RangeStart(f, f.volatile, vrange) == -1) && Content(g) == Content(disk)
            && (Content(disk) != "" ==> Leftover(g, false)))
      && (disk.head.Unusable? ==> Content(g) == "" && !Leftover(g, false))
  {
    var f := Opened(disk, volatile).fi;
    assert f.inodes == disk.inodes && f.path == disk.path;
  }

  // ---------------------------------------------------------------- the total of a range

  const SOUND := Disk(true, true, true, true, true, true)

  /** A partial answer that continues the file from where it ends, and nothing going wrong: its first
      bytes are stored exactly if the file is not longer than the total it announces. With a star
      in that place, which is read as 0, the part that was there is lost, and the item fails. */
  lemma ResumesIff(fi: Fi, j: Dl, r: Response, chunk: string)
    requires FilesExist(fi) && Order(fi.status) <= 2 && fi.sizeChecked == -1 && fi.fd.None? && !fi.mustReplace && fi.destroy.Keep?
    requires j.query.Some? && j.allow && 0 < j.query.value.used <= |Content(fi)| && chunk != ""
    requires r.code == 206 && r.range.Bytes? && r.range.start == j.query.value.used >= fi.sizeInitial
    ensures var (f, k, eval) := CheckAndSaveHeader(fi, j, r);
      && eval.EvalGood? && k.allow && f.status.DlGotHead? && f.contLen == r.range.total
      && var (g, ok) := DlAddData(f, chunk, SOUND, |chunk|);
        && (ok <==> |Content(fi)| <= r.range.total)
        && (!ok ==> g.status.DlError? && g.code == 500 && Content(g) == "")
  {
    hide Overwrite;
    var f := CheckAndSaveHeader(fi, j, r).0;
    assert f == fi.(status := DlGotHead, contLen := r.range.total, sizeChecked := r.range.start, code := 200, date := r.date);
    assert Content(f) == Content(fi);
    hide CheckAndSaveHeader;
  }
}
