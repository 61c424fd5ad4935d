/** The references of download jobs to an item: whoever waits for it waits for a job, however the
    server behaves. */
module References {
  import opened Text
  import opened ItemStatus
  import opened RemoteStatus
  import opened FileItem
  import opened SingleVersion

  /** What the references count, whatever the server sends. */
  ghost predicate Counts(s: Sys) {
    && FilesExist(s.fi) && !s.fi.status.Fresh? && s.fi.refs == |s.jobs|
    && (s.jobs != map[] ==> s.started) && (s.started && s.jobs == map[] ==> Order(s.fi.status) >= 5)
    && (forall id :: id in s.jobs ==> Serves(s.fi, s.jobs[id]))
    && (forall a, b :: a in s.jobs && b in s.jobs && s.jobs[a].owner && s.jobs[b].owner ==> a == b)
    && (s.known ==> Order(s.fi.status) >= 5)
  }

  ghost predicate Serves(fi: Fi, j: Dl) {
    (j.owner ==> Order(fi.status) >= 3) && (j.stream.Some? ==> j.owner && 3 <= Order(fi.status) <= 4)
  }

  /** What an event of one job does for the others: a finished item stays as it is, one under way
      is only ended by its owner, and nobody else becomes the owner of one. */
  ghost predicate Apart(a: Fi, j0: Dl, b: Fi, j: Dl) {
    && FilesExist(b) && !b.status.Fresh? && b.refs == a.refs && Serves(b, j)
    && (Order(a.status) >= 5 ==> b.status == a.status && b.code == a.code)
    && (Order(a.status) >= 3 ==> Order(b.status) >= 3)
    && (j.owner && !j0.owner ==> Order(a.status) <= 2)
    && (b.status == a.status || j0.owner || Order(a.status) <= 2)
  }

  /** What becomes of the job when its answer is taken. */
  ghost predicate Answered(fi: Fi, j: Dl, f: Fi, k: Dl, eval: Eval) {
    && Apart(fi, j, f, k.(query := None, stream := None))
    && (eval.EvalGood? && k.allow ==> k.owner && 3 <= Order(f.status) <= 4)
  }

  lemma StartApart(fi: Fi, j: Dl, date: Option<Date>, code: int, used: int, announced: int)
    requires FilesExist(fi) && Serves(fi, j) && (j.owner || Order(fi.status) <= 2) && Order(fi.status) <= 4
    ensures var (f, k, eval) := Start(fi, j, date, code, used, announced); Answered(fi, j, f, k, eval)
  {
    Begun(fi, date, code, used, announced);
    Ends(DlStarted(fi, date, code, used, announced).0);
    hide DlStarted, DlFinish;
  }

  lemma Ends(f: Fi)
    requires FilesExist(f) && Order(f.status) <= 5
    ensures var g := DlFinish(f, true); FilesExist(g) && g.refs == f.refs && g.status.Complete?
  {
  }

  lemma Begun(fi: Fi, date: Option<Date>, code: int, seek: int, announced: int)
    requires FilesExist(fi) && Order(fi.status) <= 4
    ensures var (f, ok) := DlStarted(fi, date, code, seek, announced);
      FilesExist(f) && f.refs == fi.refs && (f.status.DlGotHead? || (!ok && f == fi && Order(fi.status) >= 3))
  {
  }

  lemma ErrorApart(fi: Fi, j: Dl, mode: Destroy)
    requires FilesExist(fi) && Serves(fi, j) && (j.owner || Order(fi.status) <= 2) && Order(fi.status) <= 4
    ensures var (f, k, eval) := WithError(fi, j, mode); Answered(fi, j, f, k, eval)
  {
  }

  lemma ProbeApart(fi: Fi, j: Dl)
    requires FilesExist(fi) && Serves(fi, j) && (j.owner || Order(fi.status) <= 2) && Order(fi.status) <= 4
    ensures var f := DlFinish(fi.(sizeChecked := fi.sizeInitial, contLen := fi.sizeInitial), true);
      Answered(fi, j, f, j.(allow := false, owner := true), EvalGood)
  {
  }

  lemma AnswerApart(fi: Fi, j: Dl, r: Response)
    requires FilesExist(fi) && !fi.status.Fresh? && Serves(fi, j) && j.query.Some?
    ensures var (f, k, eval) := CheckAndSaveHeader(fi, j, r); Answered(fi, j, f, k, eval)
  {
    hide IsProbeAnswer, IsRedirect, Start, WithError, DlFinish;
    if Order(fi.status) <= 4 && (j.owner || Order(fi.status) <= 2) { AnswerTaken(fi, j, r); }
  }

  lemma AnswerTaken(fi: Fi, j: Dl, r: Response)
    requires FilesExist(fi) && !fi.status.Fresh? && Serves(fi, j) && j.query.Some?
    requires Order(fi.status) <= 4 && (j.owner || Order(fi.status) <= 2)
    ensures var (f, k, eval) := CheckAndSaveHeader(fi, j, r); Answered(fi, j, f, k, eval)
  {
    hide IsProbeAnswer, IsRedirect, Start, WithError, DlFinish, Answered, Serves, FilesExist;
    var used := j.query.value.used;
    if r.code == 200 {
      StartApart(fi, j, r.date, 200, 0, r.contLen);
    } else if r.code == 206 {
      ErrorApart(fi, j, Keep);
      ProbeApart(fi, j);
      if r.range.Bytes? { StartApart(fi, j, r.date, 200, used, r.range.total); }
    } else if r.code == 416 {
      ErrorApart(fi, j, Truncate);
      RefusedApart(fi, j);
    } else {
      ErrorApart(fi, j, Keep);
      if !j.owner {
        NoOwner(fi, j);
        StartApart(fi, j.(allow := false), r.date, r.code, used, -1);
        NotAllowed(fi, j, r);
      }
    }
  }

  lemma NoOwner(fi: Fi, j: Dl)
    ensures Serves(fi, j) ==> Serves(fi, j.(allow := false))
  {
  }

  lemma RefusedApart(fi: Fi, j: Dl)
    requires FilesExist(fi) && !fi.status.Fresh? && Serves(fi, j)
    ensures Answered(fi, j, fi.(sizeInitial := 0, mustReplace := true), j, EvalRestart)
  {
  }

  lemma NotAllowed(fi: Fi, j: Dl, r: Response)
    requires j.query.Some? && !j.owner
    ensures var (f, k, eval) := Start(fi, j.(allow := false), r.date, r.code, j.query.value.used, -1);
      Answered(fi, j.(allow := false), f, k, eval) ==> Answered(fi, j, f, k, eval)
  {
    hide Start;
  }

  /** Opening the file goes on with the download, or is the end of it. */
  ghost predicate Opens(a: Fi, b: Fi, ok: bool) {
    FilesExist(b) && b.refs == a.refs && if ok then 3 <= Order(b.status) <= 4 && b.fd.Some? else b.status.DlError?
  }

  lemma ReplaceOpens(fi: Fi, d: Disk)
    requires FilesExist(fi) && 3 <= Order(fi.status) <= 4
    ensures var (f, ok) := ReplaceFile(fi, d); Opens(fi, f, ok)
  {
  }

  lemma FinishOpens(fi: Fi, d: Disk)
    requires FilesExist(fi) && 3 <= Order(fi.status) <= 4 && fi.fd.Some?
    ensures var (f, ok) := FinishOpen(fi, d); Opens(fi, f, ok)
  {
    ReplaceOpens(fi, d);
    hide ReplaceFile;
  }

  lemma SafeOpens(fi: Fi, d: Disk)
    requires FilesExist(fi) && 3 <= Order(fi.status) <= 4
    ensures var (f, ok) := SafeOpenOutFile(fi, d); Opens(fi, f, ok)
  {
    var f := fi.(fd := None);
    ReplaceOpens(f, d);
    hide ReplaceFile, FinishOpen;
    var (g, ok) := if f.mustReplace || f.contLen < 0 then ReplaceFile(f, d) else OpenInPlace(f, d);
    assert Opens(f, g, ok);
    if ok { FinishOpens(g, d); }
  }

  lemma BodyApart(fi: Fi, j: Dl, chunk: string, d: Disk, wrote: nat)
    requires FilesExist(fi) && Serves(fi, j) && j.stream.Some?
    ensures var (f, ok) := DlAddData(fi, chunk, d, wrote);
      Apart(fi, j, f, j.(stream := None)) && (ok ==> 3 <= Order(f.status) <= 4)
  {
    hide Overwrite, SafeOpenOutFile;
    SafeOpens(fi, d);
  }

  lemma CountTurn(s: Sys, id: nat, f: Fi, j: Dl, good: bool)
    requires Counts(s) && id in s.jobs && Apart(s.fi, s.jobs[id], f, j)
    ensures Counts(s.(fi := f, good := good, jobs := s.jobs[id := j]))
  {
    JobCounts(s.jobs, id, j);
    var t := s.(fi := f, good := good, jobs := s.jobs[id := j]);
    assert t.jobs != map[] by { assert id in t.jobs; }
    forall k | k in t.jobs ensures Serves(f, t.jobs[k]) {
      if k != id { assert Serves(s.fi, s.jobs[k]); }
    }
    forall a, b | a in t.jobs && b in t.jobs && t.jobs[a].owner && t.jobs[b].owner ensures a == b {
      assert a != id ==> Serves(s.fi, s.jobs[a]);
      assert b != id ==> Serves(s.fi, s.jobs[b]);
    }
  }

  /** A job goes, and has ended the item if that was for it to do. */
  lemma CountLeave(s: Sys, id: nat, f: Fi, known: bool)
    requires Counts(s) && id in s.jobs && s.fi.refs > 0 && FilesExist(f) && f.refs == s.fi.refs && !f.status.Fresh?
    requires f.status == s.fi.status || (s.jobs[id].owner && Order(f.status) >= 5)
    requires known ==> s.known || Order(f.status) >= 5
    ensures Counts(s.(fi := RefDec(f, 503), jobs := s.jobs - {id}, known := known))
  {
    JobCounts(s.jobs, id, s.jobs[id]);
    var t := s.(fi := RefDec(f, 503), jobs := s.jobs - {id}, known := known);
    forall k | k in t.jobs ensures Serves(t.fi, t.jobs[k]) {
      assert Serves(s.fi, s.jobs[k]) && |t.jobs| > 0 by { JobCounts(t.jobs, k, t.jobs[k]); }
      assert Serves(s.fi, s.jobs[id]);
    }
  }

  /** How a finished item goes on: as it is, unless it is marked as faulty. */
  function End(fi: Fi, killed: bool): (Status, int) { if killed then (DlError, 500) else (fi.status, fi.code) }

  lemma CountStep(s: Sys, e: Event)
    requires Counts(s) && Can(s, e)
    ensures Counts(Apply(s, e))
    ensures var t := Apply(s, e).fi; Order(s.fi.status) >= 5 ==> (t.status, t.code) == End(s.fi, e.KillLast?)
  {
    match e
    case AddJob(id) => CountAdd(s, id);
    case DropJob(id) => CountLeave(s, id, s.fi, s.known);
    case Answer(id, r, v) => CountAnswer(s, id, r, v);
    case Body(id, chunk, d, wrote) => CountBody(s, id, chunk, d, wrote);
    case Ended(id) => CountEnded(s, id);
    case KillLast => CountKill(s);
    case _ => CountOther(s, e);
  }

  lemma CountKill(s: Sys)
    requires Counts(s) && Can(s, KillLast)
    ensures var t := Apply(s, KillLast); Counts(t) && t.fi.status.DlError? && t.fi.code == 500
  {
    var t := Apply(s, KillLast);
    forall k | k in t.jobs ensures Serves(t.fi, t.jobs[k]) { assert Serves(s.fi, s.jobs[k]); }
  }

  lemma CountAdd(s: Sys, id: nat)
    requires Counts(s) && Can(s, AddJob(id))
    ensures Counts(Apply(s, AddJob(id)))
  {
    hide CheckAndSaveHeader, DlAddData;
    JobCounts(s.jobs, id, Dl(s.fi.volatile, false, true, None, None));
    var t := Apply(s, AddJob(id));
    assert id in t.jobs;
    forall k | k in t.jobs ensures Serves(t.fi, t.jobs[k]) { assert k != id ==> Serves(s.fi, s.jobs[k]); }
  }

  lemma CountAnswer(s: Sys, id: nat, r: Response, v: Option<Date>)
    requires Counts(s) && Can(s, Answer(id, r, v))
    ensures var t := Apply(s, Answer(id, r, v));
      Counts(t) && (Order(s.fi.status) >= 5 ==> t.fi.status == s.fi.status && t.fi.code == s.fi.code)
  {
    hide CheckAndSaveHeader, DlAddData, Counts;
    assert Serves(s.fi, s.jobs[id]) && FilesExist(s.fi) && !s.fi.status.Fresh? by { OneServes(s, id); }
    AnswerApart(s.fi, s.jobs[id], r);
    var (f, j, eval) := CheckAndSaveHeader(s.fi, s.jobs[id], r);
    CountTurn(s, id, f, After(f, j, eval, r, v), s.good || (eval.EvalGood? && r.code in {200, 206}));
  }

  lemma OneServes(s: Sys, id: nat)
    requires Counts(s) && id in s.jobs
    ensures Serves(s.fi, s.jobs[id]) && FilesExist(s.fi) && !s.fi.status.Fresh?
  {
  }

  lemma CountBody(s: Sys, id: nat, chunk: string, d: Disk, wrote: nat)
    requires Counts(s) && Can(s, Body(id, chunk, d, wrote))
    ensures Counts(Apply(s, Body(id, chunk, d, wrote))) && Order(s.fi.status) < 5
  {
    hide CheckAndSaveHeader, DlAddData, Counts;
    assert Serves(s.fi, s.jobs[id]) && FilesExist(s.fi) by { OneServes(s, id); }
    BodyApart(s.fi, s.jobs[id], chunk, d, wrote);
    var t := Apply(s, Body(id, chunk, d, wrote));
    CountTurn(s, id, t.fi, t.jobs[id], s.good);
  }

  lemma CountEnded(s: Sys, id: nat)
    requires Counts(s) && Can(s, Ended(id))
    ensures var t := Apply(s, Ended(id));
      Counts(t) && (Order(s.fi.status) >= 5 ==> t.fi.status == s.fi.status && t.fi.code == s.fi.code)
  {
    hide CheckAndSaveHeader, DlAddData, Counts, RefDec;
    OneServes(s, id);
    assert s.jobs != map[] by { assert id in s.jobs; }
    CountLeave(s, id, DlFinish(s.fi, false), true);
    if Order(s.fi.status) >= 5 { Finished(s.fi); }
  }

  lemma Finished(fi: Fi)
    requires Order(fi.status) >= 5 && fi.refs > 0
    ensures var f := RefDec(DlFinish(fi, false), 503); f.status == fi.status && f.code == fi.code
  {
  }

  lemma CountOther(s: Sys, e: Event)
    requires Counts(s) && Can(s, e) && !e.AddJob? && !e.DropJob? && !e.Answer? && !e.Body? && !e.Ended? && !e.KillLast?
    ensures Counts(Apply(s, e)) && Apply(s, e).fi == s.fi
  {
    hide CheckAndSaveHeader, DlAddData;
    match e
    case Request(id, vrange) =>
      OneServes(s, id);
      CountTurn(s, id, s.fi, AppendRequest(s.fi, s.jobs[id], vrange), s.good);
    case Lost(id) =>
      OneServes(s, id);
      CountTurn(s, id, s.fi, s.jobs[id].(query := None, stream := None), s.good);
    case _ =>
  }

  lemma CountsUsable(s: Sys)
    requires Counts(s)
    ensures Usable(s)
  {
    if id :| id in s.jobs { JobCounts(s.jobs, id, s.jobs[id]); }
  }

  /** It starts so, whatever is on disk. */
  lemma StartsCounted(disk: Fi, volatile: bool)
    requires FilesExist(disk)
    ensures Counts(Opened(disk, volatile))
  {
  }

  predicate Kills(es: seq<Event>) { exists i :: 0 <= i < |es| && es[i].KillLast? }

  lemma KillsNow(es: seq<Event>)
    requires es != []
    ensures Kills(es) <==> es[0].KillLast? || Kills(es[1..])
  {
    if es[0].KillLast? {
    } else if Kills(es) {
      var i :| 0 <= i < |es| && es[i].KillLast?;
      assert es[1..][i - 1] == es[i];
    } else {
      assert forall i :: 0 <= i < |es[1..]| ==> es[1..][i] == es[i + 1];
    }
  }

  /** No abandoned readers, over every run, whatever the server sends: the reference count is the
      number of download jobs; when the last one has gone the item is complete or worse, and that is
      never left again. So who waits for an item that is not finished waits for a job that is
      still there. */
  lemma {:induction false} NoAbandonedReaders(s: Sys, es: seq<Event>)
    requires Counts(s) && Possible(s, es)
    ensures
      var t := Run(s, es);
      && Counts(t) && t.fi.refs == |t.jobs|
      && (t.started && Order(t.fi.status) < 5 ==> t.fi.refs > 0 && exists id :: id in t.jobs)
      && (Order(s.fi.status) >= 5 ==> Order(t.fi.status) >= 5)
    decreases |es|
  {
    hide Can, Apply, Serves;
    if es != [] {
      CountStep(s, es[0]);
      NoAbandonedReaders(Apply(s, es[0]), es[1..]);
    } else if s.started && Order(s.fi.status) < 5 {
      CountsUsable(s);
      assert s.jobs != map[];
      assert s.jobs.Keys != {};
      var id :| id in s.jobs.Keys;
      assert id in s.jobs;
    }
  }

  lemma {:induction false} FinishedEnd(s: Sys, es: seq<Event>)
    requires Counts(s) && Possible(s, es) && Order(s.fi.status) >= 5
    ensures var t := Run(s, es).fi; (t.status, t.code) == End(s.fi, Kills(es))
    decreases |es|
  {
    hide Can, Apply, Counts, Kills;
    if es == [] {
      assert !Kills(es) by { NobodyKills(); }
    } else {
      CountStep(s, es[0]);
      KillsNow(es);
      FinishedEnd(Apply(s, es[0]), es[1..]);
    }
  }

  lemma NobodyKills()
    ensures !Kills([])
  {
  }

  /** A finished item keeps its status and code exactly if no invalid head comes in on a connection
      that remembers it, or it was marked as faulty before. */
  lemma FinishedStaysIff(s: Sys, es: seq<Event>)
    requires Counts(s) && Possible(s, es) && Order(s.fi.status) >= 5
    ensures var t := Run(s, es).fi;
      t.status == s.fi.status && t.code == s.fi.code <==> !Kills(es) || (s.fi.status.DlError? && s.fi.code == 500)
  {
    hide Kills, Possible, Run, Counts;
    FinishedEnd(s, es);
  }

  /** That happens to items that have just come in whole, with whoever is reading them. */
  lemma CompleteIsKilled(s: Sys, id: nat)
    requires Counts(s) && Can(s, Ended(id)) && 3 <= Order(s.fi.status) <= 4
    ensures var m := Apply(s, Ended(id));
      && m.fi.status.Complete? && m.fi.code == s.fi.code && Can(m, KillLast)
      && var t := Apply(m, KillLast); t.fi.status.DlError? && t.fi.code == 500 && t.readers == s.readers
  {
    var m := Apply(s, Ended(id));
    CountStep(s, Ended(id));
    CountsUsable(m);
    hide Counts;
  }
}
