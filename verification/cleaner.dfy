/** The cleaner's timers (src/cleaner.cc): one thread that wakes for the earliest of several stamps,
    runs handlers, and merges what they say with what has been scheduled meanwhile. */
module CleanerTimers {
  /** The kinds of work, and END_OF_TIME. */
  const ETYPE_MAX: nat := 3
  const END_OF_TIME: int := 0x7fff_ffff_ffff_ffff

  type Stamps = s: seq<int> | |s| == ETYPE_MAX witness [0, 0, 0]

  /** Where the thread is: between loops, going through its snapshot, or asleep. */
  datatype Phase = AtTop | Running(snapshot: Stamps, now: int, next: nat) | Asleep(until: int, notified: bool)

  /** `needs`: the times at which the components still need their handler. */
  datatype Cleaner = Cleaner(stamps: Stamps, phase: Phase, needs: seq<set<int>>)

  datatype Event =
    | ScheduleFor(what: nat, when: int)
    | Snapshot(now: int)
    | Handle(returned: int, served: set<int>)
    | Merge(now: int)
    | Wake

  const ALL_UNSET: Stamps := [END_OF_TIME, END_OF_TIME, END_OF_TIME]

  function Min(a: int, b: int): int { if a < b then a else b }

  function Lowest(s: Stamps): (m: int)
    ensures forall i :: 0 <= i < ETYPE_MAX ==> m <= s[i]
    ensures exists i :: 0 <= i < ETYPE_MAX && m == s[i]
  {
    Min(s[0], Min(s[1], s[2]))
  }

  function Merged(a: Stamps, b: Stamps): (r: Stamps)
    ensures forall i :: 0 <= i < ETYPE_MAX ==> r[i] == Min(a[i], b[i])
  {
    [Min(a[0], b[0]), Min(a[1], b[1]), Min(a[2], b[2])]
  }

  predicate WellFormed(c: Cleaner) {
    |c.needs| == ETYPE_MAX && (c.phase.Running? ==> c.phase.next <= ETYPE_MAX)
  }

  predicate Enabled(c: Cleaner, e: Event)
    requires WellFormed(c)
  {
    match e
    case ScheduleFor(what, when) => what < ETYPE_MAX && when <= END_OF_TIME
    case Snapshot(_) => c.phase.AtTop?
    case Handle(returned, served) =>
      // what the handler returns is no later than what its component still needs
      c.phase.Running? && c.phase.next < ETYPE_MAX &&
      (c.phase.snapshot[c.phase.next] <= c.phase.now ==>
         returned <= END_OF_TIME && forall n :: n in c.needs[c.phase.next] && n !in served ==> returned <= n)
    case Merge(_) => c.phase.Running? && c.phase.next == ETYPE_MAX
    case Wake => c.phase.Asleep?
  }

  /** ScheduleFor on a cleaner that runs: a stamp is only ever lowered, and then the thread is
      told. */
  function Lowered(c: Cleaner, what: nat, when: int): Cleaner
    requires WellFormed(c) && what < ETYPE_MAX
  {
    var d := c.(needs := c.needs[what := c.needs[what] + {when}]);
    if when > c.stamps[what] then d
    else d.(stamps := c.stamps[what := when], phase := if c.phase.Asleep? then c.phase.(notified := true) else c.phase)
  }

  function Apply(c: Cleaner, e: Event): Cleaner
    requires WellFormed(c) && Enabled(c, e)
  {
    match e
    case ScheduleFor(what, when) => Lowered(c, what, when)
    case Snapshot(now) => c.(stamps := ALL_UNSET, phase := Running(c.stamps, now, 0))
    case Handle(returned, served) =>
      var Running(snap, now, i) := c.phase;
      if snap[i] > now then c.(phase := Running(snap, now, i + 1))
      else c.(phase := Running(snap[i := returned], now, i + 1), needs := c.needs[i := c.needs[i] - served])
    case Merge(now) =>
      var t := Merged(c.phase.snapshot, c.stamps);
      var next := Lowest(t);
      c.(stamps := t, phase := if next <= now then AtTop else Asleep(now + Min(next - now, 84600), false))
    case Wake => c.(phase := AtTop)
  }

  // ---------------------------------------------------------------- no timer is lost

  /** The earliest time at which kind `i` will be looked at: by the live stamp, or by the one in
      the snapshot that has not been merged back. */
  function Due(c: Cleaner, i: nat): int
    requires WellFormed(c) && i < ETYPE_MAX
  {
    if c.phase.Running? then Min(c.stamps[i], c.phase.snapshot[i]) else c.stamps[i]
  }

  /** No need is later than that; and a sleeping thread is told, or wakes in time. */
  predicate Inv(c: Cleaner) {
    && WellFormed(c)
    && (forall i, n :: 0 <= i < ETYPE_MAX && n in c.needs[i] ==> Due(c, i) <= n)
    && (c.phase.Asleep? && !c.phase.notified ==> forall i :: 0 <= i < ETYPE_MAX ==> c.phase.until <= c.stamps[i])
  }

  lemma StepInv(c: Cleaner, e: Event)
    requires Inv(c) && Enabled(c, e)
    ensures Inv(Apply(c, e))
  {
    var d := Apply(c, e);
    forall i, n | 0 <= i < ETYPE_MAX && n in d.needs[i] ensures Due(d, i) <= n {
      if n in c.needs[i] { assert Due(c, i) <= n; }
    }
  }

  ghost predicate Possible(c: Cleaner, es: seq<Event>)
    requires WellFormed(c)
    decreases |es|
  {
    es == [] || (Enabled(c, es[0]) && WellFormed(Apply(c, es[0])) && Possible(Apply(c, es[0]), es[1..]))
  }

  ghost function Run(c: Cleaner, es: seq<Event>): Cleaner
    requires WellFormed(c) && Possible(c, es)
    decreases |es|
  {
    if es == [] then c else Run(Apply(c, es[0]), es[1..])
  }

  /** No timer is lost, however calls of ScheduleFor mix with snapshots, handlers and merges: what
      is due is never later than what is needed, a sleeper that was not told wakes no later than
      the earliest need, and a need whose time has come when the snapshot is taken gets its handler
      run. */
  lemma {:induction false} NoLostTimer(c: Cleaner, es: seq<Event>)
    requires Inv(c) && Possible(c, es)
    ensures var d := Run(c, es);
      && Inv(d)
      && (forall i, n :: 0 <= i < ETYPE_MAX && n in d.needs[i] ==>
            && (d.phase.Asleep? && !d.phase.notified ==> d.phase.until <= n)
            && (d.phase.AtTop? ==> forall now :: n <= now ==> Apply(d, Snapshot(now)).phase.snapshot[i] <= now))
    decreases |es|
  {
    if es == [] {
      forall i, n | 0 <= i < ETYPE_MAX && n in c.needs[i] ensures c.stamps[i] <= n || c.phase.Running? { assert Due(c, i) <= n; }
    } else {
      StepInv(c, es[0]);
      hide Inv, Apply;
      NoLostTimer(Apply(c, es[0]), es[1..]);
    }
  }

  /** A started cleaner. */
  function Started(what: nat, when: int): Cleaner
    requires what < ETYPE_MAX
  {
    Cleaner(ALL_UNSET[what := when], AtTop, [{}, {}, {}][what := {when}])
  }

  lemma StartedOk(what: nat, when: int)
    requires what < ETYPE_MAX
    ensures Inv(Started(what, when))
  {
  }

  // ---------------------------------------------------------------- in place

  class CleanerThread {
    const stamps: array<int>

    constructor ()
      ensures fresh(stamps) && stamps.Length == ETYPE_MAX && stamps[..] == ALL_UNSET
    {
      stamps := new int[ETYPE_MAX](_ => END_OF_TIME);
    }

    /** ScheduleFor under the lock; says whether the thread is to be notified. */
    method ScheduleFor(when: int, what: nat) returns (notify: bool)
      requires stamps.Length == ETYPE_MAX && what < ETYPE_MAX
      modifies stamps
      ensures forall c: Cleaner :: WellFormed(c) && c.stamps == old(stamps[..]) ==> stamps[..] == Lowered(c, what, when).stamps
      ensures notify <==> when <= old(stamps[what])
    {
      if when > stamps[what] { return false; }
      stamps[what] := when;
      return true;
    }

    /** The first critical section: take the stamps, and unset them. */
    method TakeSnapshot() returns (snapshot: seq<int>)
      requires stamps.Length == ETYPE_MAX
      modifies stamps
      ensures snapshot == old(stamps[..]) && stamps[..] == ALL_UNSET
    {
      snapshot := stamps[..];
      for i := 0 to ETYPE_MAX
        invariant forall j :: 0 <= j < i ==> stamps[j] == END_OF_TIME
      {
        stamps[i] := END_OF_TIME;
      }
    }

    /** The second one: merge what the handlers said with what was scheduled meanwhile. */
    method MergeBack(snapshot: seq<int>) returns (next: int)
      requires stamps.Length == ETYPE_MAX == |snapshot|
      requires forall i :: 0 <= i < ETYPE_MAX ==> snapshot[i] <= END_OF_TIME
      modifies stamps
      ensures stamps[..] == Merged(snapshot, old(stamps[..])) && next == Lowest(stamps[..])
    {
      next := END_OF_TIME;
      for i := 0 to ETYPE_MAX
        invariant forall j :: 0 <= j < i ==> stamps[j] == Min(snapshot[j], old(stamps[j])) && next <= stamps[j]
        invariant forall j :: i <= j < ETYPE_MAX ==> stamps[j] == old(stamps[j])
        invariant next == END_OF_TIME || exists j :: 0 <= j < i && next == stamps[j]
      {
        var t := Min(snapshot[i], stamps[i]);
        next := Min(next, t);
        stamps[i] := t;
      }
      assert forall i :: 0 <= i < ETYPE_MAX ==> stamps[..][i] == Merged(snapshot, old(stamps[..]))[i];
    }
  }
}
