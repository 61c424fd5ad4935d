/** The thread pool (src/tpool.cc). Its threads and callers take turns under one lock; a turn is
    what happens between taking and releasing it. */
module ThreadPool {
  type Job = nat

  datatype Thread = Spare | Busy(job: Job) | Ended

  /** `accepted` and `started` record the jobs schedule has taken, and those begun, in order. */
  datatype Pool = Pool(threads: seq<Thread>, spare: int, active: int, work: seq<Job>, shutdown: bool,
                       accepted: seq<Job>, started: seq<Job>)

  datatype Limits = Limits(maxCount: nat, maxSpare: nat)

  datatype Event =
    | Schedule(job: Job, threadOk: bool)
    | Turn(i: nat)
    | Finish(i: nat)
    | Stop
    | StopReturns

  predicate Enabled(p: Pool, e: Event) {
    match e
    case Schedule(_, _) => true
    case Turn(i) => i < |p.threads| && p.threads[i].Spare?
    case Finish(i) => i < |p.threads| && p.threads[i].Busy?
    case Stop => true
    case StopReturns => p.shutdown && p.spare + p.active == 0
  }

  /** schedule: whether it accepts, and the pool then. */
  function Scheduled(l: Limits, p: Pool, job: Job, threadOk: bool): (Pool, bool) {
    if p.active + p.active >= l.maxCount then (p, false)
    else if p.spare < |p.work| + 1 then
      if !threadOk then (p, false)
      else (p.(threads := p.threads + [Spare], spare := p.spare + 1, work := p.work + [job], accepted := p.accepted + [job]), true)
    else (p.(work := p.work + [job], accepted := p.accepted + [job]), true)
  }

  function Apply(l: Limits, p: Pool, e: Event): Pool
    requires Enabled(p, e)
  {
    match e
    case Schedule(job, threadOk) => Scheduled(l, p, job, threadOk).0
    case Turn(i) =>
      if p.shutdown then p.(threads := p.threads[i := Ended], spare := p.spare - 1)
      else if p.work == [] then p
      else p.(threads := p.threads[i := Busy(p.work[0])], spare := p.spare - 1, active := p.active + 1,
              work := p.work[1..], started := p.started + [p.work[0]])
    case Finish(i) =>
      if p.spare >= l.maxSpare || p.shutdown then p.(threads := p.threads[i := Ended], active := p.active - 1)
      else p.(threads := p.threads[i := Spare], active := p.active - 1, spare := p.spare + 1)
    case Stop => p.(shutdown := true)
    case StopReturns => p
  }

  const EMPTY: Pool := Pool([], 0, 0, [], false, [], [])

  // ---------------------------------------------------------------- the invariant

  function SpareCount(ts: seq<Thread>): nat { if ts == [] then 0 else (if ts[0].Spare? then 1 else 0) + SpareCount(ts[1..]) }
  function BusyCount(ts: seq<Thread>): nat { if ts == [] then 0 else (if ts[0].Busy? then 1 else 0) + BusyCount(ts[1..]) }

  lemma {:induction false} CountsAt(ts: seq<Thread>, i: nat, t: Thread)
    requires i < |ts|
    ensures SpareCount(ts[i := t]) == SpareCount(ts) - (if ts[i].Spare? then 1 else 0) + (if t.Spare? then 1 else 0)
    ensures BusyCount(ts[i := t]) == BusyCount(ts) - (if ts[i].Busy? then 1 else 0) + (if t.Busy? then 1 else 0)
    decreases i
  {
    if i == 0 {
      assert ts[0 := t][1..] == ts[1..];
    } else {
      CountsAt(ts[1..], i - 1, t);
      assert ts[i := t][1..] == ts[1..][i - 1 := t];
    }
  }

  lemma {:induction false} CountsMore(ts: seq<Thread>)
    ensures SpareCount(ts + [Spare]) == SpareCount(ts) + 1 && BusyCount(ts + [Spare]) == BusyCount(ts)
    decreases |ts|
  {
    if ts == [] {
      assert ts + [Spare] == [Spare] && [Spare][1..] == [];
    } else {
      CountsMore(ts[1..]);
      assert (ts + [Spare])[1..] == ts[1..] + [Spare];
    }
  }

  lemma {:induction false} CountsFind(ts: seq<Thread>)
    ensures SpareCount(ts) > 0 ==> exists i :: 0 <= i < |ts| && ts[i].Spare?
    ensures BusyCount(ts) > 0 ==> exists i :: 0 <= i < |ts| && ts[i].Busy?
    ensures (exists i :: 0 <= i < |ts| && !ts[i].Ended?) ==> SpareCount(ts) + BusyCount(ts) > 0
    decreases |ts|
  {
    if ts != [] {
      CountsFind(ts[1..]);
      assert forall i :: 0 <= i < |ts[1..]| ==> ts[1..][i] == ts[i + 1];
      assert forall i :: 0 < i < |ts| ==> ts[i] == ts[1..][i - 1];
    }
  }

  /** The counters count the threads; what was accepted has been started, or waits, in order; and
      unless the pool shuts down, there is a spare thread for every job that waits. */
  predicate Inv(p: Pool) {
    && p.spare == SpareCount(p.threads) && p.active == BusyCount(p.threads)
    && p.accepted == p.started + p.work
    && (!p.shutdown ==> |p.work| <= p.spare)
  }

  lemma StepInv(l: Limits, p: Pool, e: Event)
    requires Inv(p) && Enabled(p, e)
    ensures Inv(Apply(l, p, e))
  {
    hide SpareCount, BusyCount;
    match e
    case Schedule(job, threadOk) =>
      CountsMore(p.threads);
      assert p.started + p.work + [job] == p.started + (p.work + [job]);
    case Turn(i) =>
      CountsAt(p.threads, i, Ended);
      if p.work != [] {
        CountsAt(p.threads, i, Busy(p.work[0]));
        assert p.started + [p.work[0]] + p.work[1..] == p.started + p.work;
      }
    case Finish(i) =>
      CountsAt(p.threads, i, Ended);
      CountsAt(p.threads, i, Spare);
    case _ =>
  }

  ghost predicate Possible(l: Limits, p: Pool, es: seq<Event>)
    decreases |es|
  {
    es == [] || (Enabled(p, es[0]) && Possible(l, Apply(l, p, es[0]), es[1..]))
  }

  ghost function Run(l: Limits, p: Pool, es: seq<Event>): Pool
    requires Possible(l, p, es)
    decreases |es|
  {
    if es == [] then p else Run(l, Apply(l, p, es[0]), es[1..])
  }

  lemma {:induction false} RunInv(l: Limits, p: Pool, es: seq<Event>)
    requires Inv(p) && Possible(l, p, es)
    ensures Inv(Run(l, p, es))
    decreases |es|
  {
    hide Inv, Apply;
    if es != [] {
      StepInv(l, p, es[0]);
      RunInv(l, Apply(l, p, es[0]), es[1..]);
    }
  }

  /** In every interleaving: spare and active threads are all there are; accepted jobs have been
      started exactly once and in the order they were accepted, up to those that wait; while the
      pool is open, some spare thread is there for them; and when stop can return, no thread is
      left. */
  lemma PoolWorks(l: Limits, es: seq<Event>)
    requires Possible(l, EMPTY, es)
    ensures var p := Run(l, EMPTY, es);
      && p.spare + p.active == SpareCount(p.threads) + BusyCount(p.threads)
      && p.started <= p.accepted && p.accepted[|p.started|..] == p.work
      && (!p.shutdown && p.work != [] ==> exists i :: 0 <= i < |p.threads| && p.threads[i].Spare?)
      && (Enabled(p, StopReturns) ==> forall i :: 0 <= i < |p.threads| ==> p.threads[i].Ended?)
  {
    hide SpareCount, BusyCount;
    assert SpareCount([]) == 0 && BusyCount([]) == 0 by { NoThreads(); }
    RunInv(l, EMPTY, es);
    var p := Run(l, EMPTY, es);
    CountsFind(p.threads);
  }

  lemma NoThreads()
    ensures SpareCount([]) == 0 && BusyCount([]) == 0
  {
  }

  /** After stop, every turn of a thread is its last: so without new jobs it ends, and as long as
      stop has to wait there is a thread whose turn it can be. */
  lemma StopEnds(l: Limits, p: Pool, e: Event)
    requires Inv(p) && p.shutdown && Enabled(p, e) && (e.Turn? || e.Finish?)
    ensures var q := Apply(l, p, e);
      q.shutdown && q.spare + q.active == p.spare + p.active - 1 && q.started == p.started
  {
  }

  lemma StopIsNotStuck(p: Pool)
    requires Inv(p) && p.shutdown
    ensures Enabled(p, StopReturns) || exists i :: Enabled(p, Turn(i)) || Enabled(p, Finish(i))
  {
    hide SpareCount, BusyCount;
    CountsFind(p.threads);
    if p.spare > 0 {
      var i :| 0 <= i < |p.threads| && p.threads[i].Spare?;
      assert Enabled(p, Turn(i));
    } else if p.active > 0 {
      var i :| 0 <= i < |p.threads| && p.threads[i].Busy?;
      assert Enabled(p, Finish(i));
    }
  }

  /** The limit counts the active threads twice and the spare ones not at all: callers that are
      faster than the threads get as many threads as they like. */
  function Burst(n: nat): seq<Event> { if n == 0 then [] else [Schedule(n, true)] + Burst(n - 1) }

  lemma {:induction false} NoThreadLimit(l: Limits, p: Pool, n: nat)
    requires l.maxCount > 0 && p.active == 0 && p.spare == |p.work| == |p.threads|
    ensures Possible(l, p, Burst(n))
    ensures |Run(l, p, Burst(n)).threads| == |p.threads| + n
    decreases n
  {
    if n > 0 {
      assert Burst(n)[1..] == Burst(n - 1);
      NoThreadLimit(l, Apply(l, p, Schedule(n, true)), n - 1);
    }
  }

  // ---------------------------------------------------------------- in place

  class TPool {
    const limits: Limits
    var curActive: int
    var curSpare: int
    var freshWork: seq<Job>
    var isShutdown: bool
    // who the threads are, and what has become of the jobs
    ghost var threads: seq<Thread>
    ghost var accepted: seq<Job>
    ghost var started: seq<Job>

    ghost function State(): Pool
      reads this
    {
      Pool(threads, curSpare, curActive, freshWork, isShutdown, accepted, started)
    }

    constructor (l: Limits)
      ensures State() == EMPTY && limits == l
    {
      limits := l;
      curActive, curSpare, freshWork, isShutdown := 0, 0, [], false;
      threads, accepted, started := [], [], [];
    }

    method ScheduleAction(action: Job, threadOk: bool) returns (ok: bool)
      modifies this
      ensures (State(), ok) == Scheduled(limits, old(State()), action, threadOk)
    {
      if curActive + curActive >= limits.maxCount { return false; }
      if curSpare < |freshWork| + 1 {
        if !threadOk { return false; }
        threads := threads + [Spare];
        curSpare := curSpare + 1;
      }
      freshWork := freshWork + [action];
      accepted := accepted + [action];
      return true;
    }

    /** ThreadAction up to the point where thread `me` waits, leaves, or runs a job. */
    method NextWork(ghost me: nat) returns (job: Job, got: bool)
      requires Enabled(State(), Turn(me))
      modifies this
      ensures State() == Apply(limits, old(State()), Turn(me))
      ensures got ==> State().threads[me] == Busy(job)
    {
      if isShutdown {
        curSpare := curSpare - 1;
        threads := threads[me := Ended];
        return 0, false;
      }
      if freshWork == [] { return 0, false; }
      job := freshWork[0];
      freshWork := freshWork[1..];
      curSpare := curSpare - 1;
      curActive := curActive + 1;
      threads, started := threads[me := Busy(job)], started + [job];
      return job, true;
    }

    /** After the job: whether the thread goes on. */
    method AfterWork(ghost me: nat) returns (more: bool)
      requires Enabled(State(), Finish(me))
      modifies this
      ensures State() == Apply(limits, old(State()), Finish(me)) && (more <==> State().threads[me].Spare?)
    {
      curActive := curActive - 1;
      if curSpare >= limits.maxSpare || isShutdown {
        threads := threads[me := Ended];
        return false;
      }
      curSpare := curSpare + 1;
      threads := threads[me := Spare];
      return true;
    }
  }
}
