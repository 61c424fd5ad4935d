/** The agent does not retry forever: failures are bounded by the jobs, hosts and redirections
    there are. */
module Retries {
  import opened Text
  import opened Decoder
  import opened Agent
  import opened Conservation

  /** A job counts for itself and for each redirection it may still follow. */
  function Weight(ts: seq<Task>): nat {
    if ts == [] then 0 else 1 + ts[0].redirs + Weight(ts[1..])
  }

  function Positive(n: int): nat { if n > 0 then n else 0 }

  /** What can still go wrong, and be retried: jobs and redirections; for every host not yet
      blacklisted its tolerated losses; and those left of the current ones. */
  function Rank(c: Config, hosts: set<Host>, s: State): nat {
    Weight(s.newJobs) + Weight(s.next) + Weight(s.active)
    + HostRank(c, |hosts - s.blacklist|) + Positive(s.tolerance)
  }

  function HostRank(c: Config, n: nat): nat { (Positive(c.retries) + 1) * n }

  predicate Within(hosts: set<Host>, ts: seq<Task>) { forall i :: 0 <= i < |ts| ==> Candidates(ts[i]) <= hosts }

  /** All sources are among these hosts, and the jobs in the pipeline use one that is not
      blacklisted. */
  predicate Sound(hosts: set<Host>, s: State) {
    && Within(hosts, s.newJobs) && Within(hosts, s.next) && Within(hosts, s.active)
    && forall i :: 0 <= i < |s.active| ==> Usable(s.active[i], s.blacklist)
  }

  predicate Usable(t: Task, blacklist: set<Host>) { Peer(t) in Candidates(t) && Peer(t) !in blacklist }

  predicate ScopedEvent(hosts: set<Host>, e: Event) {
    match e
    case Append(t) => Candidates(t) <= hosts
    case Back(x, _) => Within(hosts, x.pipe)
    case _ => true
  }

  // ---------------------------------------------------------------- arithmetic of it

  lemma {:induction false} WeightSum(a: seq<Task>, b: seq<Task>)
    ensures Weight(a + b) == Weight(a) + Weight(b)
    decreases |a|
  {
    if a == [] {
      assert a + b == b;
    } else {
      WeightSum(a[1..], b);
      assert (a + b)[1..] == a[1..] + b;
    }
  }

  lemma {:induction false} WeightBelow(a: seq<Task>, b: seq<Task>)
    requires |a| == |b| && forall i :: 0 <= i < |a| ==> a[i].redirs <= b[i].redirs
    ensures Weight(a) <= Weight(b)
    ensures a != [] && a[0].redirs < b[0].redirs ==> Weight(a) < Weight(b)
    decreases |a|
  {
    if a != [] { WeightBelow(a[1..], b[1..]); }
  }

  lemma WeightCounts(ts: seq<Task>)
    ensures Weight(ts) >= |ts|
  {
  }

  lemma Blacklisted(c: Config, hosts: set<Host>, b: set<Host>, h: Host)
    ensures HostRank(c, |hosts - (b + {h})|) <= HostRank(c, |hosts - b|)
    ensures h in hosts && h !in b ==> HostRank(c, |hosts - (b + {h})|) + Positive(c.retries) + 1 == HostRank(c, |hosts - b|)
  {
    var m, n := |hosts - (b + {h})|, |hosts - b|;
    if h in hosts && h !in b {
      assert hosts - b == (hosts - (b + {h})) + {h};
      assert n == m + 1;
    } else {
      assert hosts - b == hosts - (b + {h});
    }
  }

  // ---------------------------------------------------------------- up to select

  lemma SetupUsable(hosts: set<Host>, t: Task, blacklist: set<Host>)
    requires Candidates(t) <= hosts
    ensures var (u, ok) := Setup(t, blacklist);
      Candidates(u) <= hosts && u.redirs == t.redirs && (ok ==> Usable(u, blacklist))
  {
    SetupIff(t, blacklist);
  }

  lemma Prepended(hosts: set<Host>, t: Task, ts: seq<Task>)
    requires Candidates(t) <= hosts && Within(hosts, ts)
    ensures Within(hosts, [t] + ts) && Within(hosts, ts + [t])
    ensures Weight([t] + ts) == 1 + t.redirs + Weight(ts) == Weight(ts + [t])
  {
    hide Candidates;
    WeightSum(ts, [t]);
    assert Weight([t]) == 1 + t.redirs;
    assert ([t] + ts)[1..] == ts;
  }

  lemma FillOneRanks(c: Config, hosts: set<Host>, s: State)
    requires s.con.Some? && s.next != [] && Sound(hosts, s)
    ensures var r := FillOne(c, s).0; Sound(hosts, r) && Rank(c, hosts, r) <= Rank(c, hosts, s) && r.blacklist == s.blacklist
  {
    hide Setup, Fits, Candidates, Peer, HostRank, Usable, Weight;
    var (t, ok) := Setup(s.next[0], s.blacklist);
    var rest := s.next[1..];
    assert Candidates(s.next[0]) <= hosts;
    SetupUsable(hosts, s.next[0], s.blacklist);
    assert s.next == [s.next[0]] + rest;
    Prepended(hosts, s.next[0], rest);
    if ok && !Fits(c, s, t) {
      Prepended(hosts, t, rest);
    } else if ok {
      Prepended(hosts, t, s.active);
    }
  }

  lemma {:induction false} FillRanks(c: Config, hosts: set<Host>, s: State)
    requires s.con.Some? && Sound(hosts, s)
    ensures var r := Fill(c, s); Sound(hosts, r) && Rank(c, hosts, r) <= Rank(c, hosts, s) && r.blacklist == s.blacklist
    decreases |s.next|
  {
    hide FillOne, Sound, Rank;
    if !(s.stop || s.next == [] || |s.active| > c.pipelineLen) {
      FillOneRanks(c, hosts, s);
      var (r, more) := FillOne(c, s);
      if more { FillRanks(c, hosts, r); }
    }
  }

  lemma {:induction false} PurgeRanks(hosts: set<Host>, ts: seq<Task>, blacklist: set<Host>)
    requires Within(hosts, ts)
    ensures var kept := Purge(ts, blacklist).0;
      && Weight(kept) <= Weight(ts) && Within(hosts, kept)
      && forall i :: 0 <= i < |kept| ==> Usable(kept[i], blacklist)
    decreases |ts|
  {
    hide Setup, Candidates, Peer, Usable;
    if ts != [] {
      PurgeRanks(hosts, ts[1..], blacklist);
      assert Candidates(ts[0]) <= hosts;
      SetupUsable(hosts, ts[0], blacklist);
      Prepended(hosts, Setup(ts[0], blacklist).0, Purge(ts[1..], blacklist).0);
    }
  }

  /** A failed connection costs a host. */
  lemma ConnectRanks(c: Config, hosts: set<Host>, s: State, d: Dial)
    requires s.next != [] && s.active == [] && Sound(hosts, s) && Usable(s.next[0], s.blacklist)
    ensures var r := Connect(c, s, d);
      && Sound(hosts, r) && Rank(c, hosts, r) <= Rank(c, hosts, s)
      && (r.blacklist != s.blacklist ==> Rank(c, hosts, r) < Rank(c, hosts, s) && r.con == s.con)
  {
    hide Candidates, HostRank, Weight;
    Blacklisted(c, hosts, s.blacklist, Peer(s.next[0]));
  }

  lemma ClearedRanks(c: Config, hosts: set<Host>, s: State)
    requires Sound(hosts, s) && s.active == []
    ensures var r := Cleared(s);
      && Sound(hosts, r) && Rank(c, hosts, r) <= Rank(c, hosts, s) && r.active == [] && r.blacklist == s.blacklist
      && (r.next != [] ==> Usable(r.next[0], r.blacklist))
  {
    hide Purge, AllGone, Candidates, Usable, HostRank, Weight;
    PurgeRanks(hosts, s.next, s.blacklist);
  }

  lemma ReopenRanks(c: Config, hosts: set<Host>, s: State, d: Dial)
    requires Sound(hosts, s) && s.con.None? && s.active == []
    ensures var t := Reopen(c, s, d);
      && Sound(hosts, t) && Rank(c, hosts, t) <= Rank(c, hosts, s)
      && (t.blacklist != s.blacklist ==> Rank(c, hosts, t) < Rank(c, hosts, s))
  {
    hide Fill, Cleared, Usable, Connect, Rank, Sound;
    ClearedRanks(c, hosts, s);
    var q := Cleared(s);
    if q.next == [] {
      SameRank(c, hosts, q, q.(place := AtSelect));
    } else {
      ConnectRanks(c, hosts, q, d);
      var u := Connect(c, q, d);
      if u.con.Some? {
        FillRanks(c, hosts, u);
        SameRank(c, hosts, Fill(c, u), Fill(c, u).(place := AtSelect));
      }
    }
  }

  lemma TakeRanks(c: Config, hosts: set<Host>, s: State)
    requires Sound(hosts, s)
    ensures Sound(hosts, Take(s)) && Rank(c, hosts, Take(s)) == Rank(c, hosts, s)
  {
    hide Candidates, Usable, HostRank;
    WeightSum(s.newJobs, s.next);
    assert Weight([]) == 0;
  }

  lemma PrepareRanks(c: Config, hosts: set<Host>, s: State, d: Dial)
    requires Tidy(s) && Sound(hosts, s) && s.place.AtTop?
    ensures var t := Prepare(c, s, d);
      && Sound(hosts, t) && Rank(c, hosts, t) <= Rank(c, hosts, s)
      && (t.blacklist != s.blacklist ==> Rank(c, hosts, t) < Rank(c, hosts, s))
  {
    hide Fill, Reopen, AllGone, NoneForgotten, Rank, Sound;
    if s.hint < 0 && s.active == [] {
      ExitRanks(c, hosts, s);
    } else {
      TakeRanks(c, hosts, s);
      var r := Take(s);
      if r.next == [] && r.active == [] {
        SameRank(c, hosts, r, r.(place := AtSelect));
      } else if r.con.None? {
        ReopenRanks(c, hosts, r, d);
      } else {
        FillRanks(c, hosts, r);
        SameRank(c, hosts, Fill(c, r), Fill(c, r).(place := AtSelect));
      }
    }
  }

  lemma ExitRanks(c: Config, hosts: set<Host>, s: State)
    requires Sound(hosts, s)
    ensures var t := s.(con := None, wire := [], place := Exited, gone := s.gone + AllGone(s.next, ShutDown), next := []);
      Sound(hosts, t) && Rank(c, hosts, t) <= Rank(c, hosts, s)
  {
    hide Candidates, Usable, HostRank, AllGone;
    assert Weight([]) == 0;
  }

  // ---------------------------------------------------------------- after ExchangeData

  lemma {:induction false} WithoutRanks(hosts: set<Host>, ts: seq<Task>, taken: set<nat>)
    requires Within(hosts, ts)
    ensures Weight(Without(ts, taken).0) <= Weight(ts) && Within(hosts, Without(ts, taken).0)
    decreases |ts|
  {
    hide Candidates;
    if ts != [] {
      WithoutRanks(hosts, ts[1..], taken);
      assert ([ts[0]] + Without(ts[1..], taken).0)[1..] == Without(ts[1..], taken).0;
    }
  }

  lemma GiveUpRanks(c: Config, hosts: set<Host>, s: State, collision: bool, taken: set<nat>)
    requires s.active != [] && Within(hosts, s.newJobs) && Within(hosts, s.next) && Within(hosts, s.active)
    ensures var t := GiveUp(s, collision, taken);
      Rank(c, hosts, t) < Rank(c, hosts, s) && Within(hosts, t.newJobs) && Within(hosts, t.next) && Within(hosts, t.active)
  {
    hide Candidates, HostRank, Without;
    WithoutRanks(hosts, s.active[1..], taken);
    WithoutRanks(hosts, s.next, taken);
  }

  lemma BackRanks(c: Config, hosts: set<Host>, s: State)
    requires Within(hosts, s.newJobs) && Within(hosts, s.next) && Within(hosts, s.active)
    ensures Rank(c, hosts, BackToQueue(s)) == Rank(c, hosts, s) && Sound(hosts, BackToQueue(s))
  {
    hide Candidates, HostRank;
    WeightSum(s.active, s.next);
  }

  /** A lost connection costs a tolerated loss, or a host. */
  lemma LoseRanks(c: Config, hosts: set<Host>, s: State)
    requires Sound(hosts, s) && s.active != []
    ensures var t := Lose(c, s);
      && Rank(c, hosts, t) <= Rank(c, hosts, s) && (!s.expectClose ==> Rank(c, hosts, t) < Rank(c, hosts, s))
      && t.active == s.active && t.next == s.next && t.newJobs == s.newJobs
  {
    hide Candidates, HostRank, Weight;
    assert Usable(s.active[0], s.blacklist);
    Blacklisted(c, hosts, s.blacklist, Peer(s.active[0]));
  }

  lemma FailedRanks(c: Config, hosts: set<Host>, s: State, flags: set<Flag>, taken: set<nat>)
    requires Within(hosts, s.newJobs) && Within(hosts, s.next) && Within(hosts, s.active)
    ensures var t := Failed(c, s, flags, taken);
      && Sound(hosts, t) && Rank(c, hosts, t) <= Rank(c, hosts, s)
      && (s.active != [] && JobBroken in flags ==> Rank(c, hosts, t) < Rank(c, hosts, s))
      && (s.active != [] && MirrorBroken in flags && Usable(s.active[0], s.blacklist) ==> Rank(c, hosts, t) < Rank(c, hosts, s))
  {
    hide Candidates, HostRank, Weight, GiveUp, BackToQueue;
    if s.active != [] {
      var h := Peer(s.active[0]);
      Blacklisted(c, hosts, s.blacklist, h);
      var r := if MirrorBroken in flags then s.(blacklist := s.blacklist + {h}) else s;
      assert Rank(c, hosts, r) <= Rank(c, hosts, s);
      if JobBroken in flags {
        GiveUpRanks(c, hosts, r, StoreCollision in flags, taken);
        BackRanks(c, hosts, GiveUp(r, StoreCollision in flags, taken));
      } else {
        BackRanks(c, hosts, r);
      }
    }
  }

  predicate Trouble(s: State, f: set<Flag>) {
    s.active != [] && (JobBroken in f || MirrorBroken in f || (LostCon in f && !s.expectClose))
  }

  lemma SettleRanks(c: Config, hosts: set<Host>, s: State, e: Exchange, taken: set<nat>)
    requires Within(hosts, s.newJobs) && Within(hosts, s.next) && Within(hosts, s.active)
    requires TgtChange !in e.flags ==> Sound(hosts, s)
    requires (Done in e.flags ==> e.flags == {Done}) && (Switch in e.flags ==> e.flags == {Switch})
    requires TgtChange in e.flags ==> s.active != [] && !Trouble(s, e.flags)
    ensures var t := Settle(c, s, e, taken);
      && Sound(hosts, t) && Rank(c, hosts, t) <= Rank(c, hosts, s)
      && (Trouble(s, e.flags) ==> Rank(c, hosts, t) < Rank(c, hosts, s))
  {
    hide Candidates, HostRank, Weight, Failed, Usable, BackToQueue, Lose, Rank, Within, Sound;
    var f := e.flags;
    var q := if s.active == [] then s.(stop := false) else s;
    SameRank(c, hosts, s, q);
    if s.active == [] && s.con.Some? && f * ERRORS == {} {
      SameRank(c, hosts, s, q.(con := None, wire := []));
    } else {
      var p := Reset(q, f);
      SameRank(c, hosts, s, p);
      if TgtChange in f {
        var r := p.(con := None, wire := [], pipeOff := if e.mixed then 30 else p.pipeOff);
        SameRank(c, hosts, s, r);
        BackRanks(c, hosts, r);
      } else if LostCon in f && p.active != [] {
        LostRanks(c, hosts, p, f, taken);
      } else if !GoesOn(f) {
        FailedRanks(c, hosts, p, f, taken);
        if p.active != [] { FrontUsable(hosts, p); }
      }
    }
  }

  lemma SameRank(c: Config, hosts: set<Host>, s: State, t: State)
    requires t.newJobs == s.newJobs && t.next == s.next && t.active == s.active && t.blacklist == s.blacklist && t.tolerance == s.tolerance
    ensures Rank(c, hosts, t) == Rank(c, hosts, s) && (Sound(hosts, s) ==> Sound(hosts, t))
  {
  }

  lemma FrontUsable(hosts: set<Host>, s: State)
    requires Sound(hosts, s) && s.active != []
    ensures Usable(s.active[0], s.blacklist)
  {
  }

  lemma LostRanks(c: Config, hosts: set<Host>, s: State, f: set<Flag>, taken: set<nat>)
    requires Sound(hosts, s) && s.active != [] && LostCon in f && Done !in f
    ensures
      var f2 := if !c.vrange && s.active[0].volatile then f + {JobBroken} else f;
      var t := Failed(c, Lose(c, s), f2, taken);
      && Sound(hosts, t) && Rank(c, hosts, t) <= Rank(c, hosts, s)
      && (JobBroken in f || MirrorBroken in f || !s.expectClose ==> Rank(c, hosts, t) < Rank(c, hosts, s))
  {
    hide Candidates, HostRank, Weight, Failed, Usable, Lose, Rank;
    LoseRanks(c, hosts, s);
    var f2 := if !c.vrange && s.active[0].volatile then f + {JobBroken} else f;
    FailedRanks(c, hosts, Lose(c, s), f2, taken);
    if s.expectClose { LoseExpected(c, s); }
    FrontUsable(hosts, s);
  }

  lemma LoseExpected(c: Config, s: State)
    requires s.active != [] && s.expectClose
    ensures Lose(c, s).blacklist == s.blacklist
  {
  }

  lemma PopRanks(c: Config, hosts: set<Host>, s: State, e: Exchange)
    requires Sound(hosts, s) && Returns(s, e) && Within(hosts, e.pipe)
    ensures var r := Pop(s, e);
      && Rank(c, hosts, r) <= Rank(c, hosts, s)
      && (e.finished > 0 || TgtChange in e.flags ==> Rank(c, hosts, r) < Rank(c, hosts, s))
      && (TgtChange !in e.flags ==> Sound(hosts, r))
  {
    hide HostRank, AllGone, Weight, Candidates, Usable;
    PipeRanks(s, e);
    if TgtChange !in e.flags { PipeUsable(hosts, s, e); }
  }

  lemma PipeRanks(s: State, e: Exchange)
    requires Returns(s, e)
    ensures Weight(e.pipe) <= Weight(s.active)
    ensures e.finished > 0 || TgtChange in e.flags ==> Weight(e.pipe) < Weight(s.active)
  {
    hide Weight;
    var a, b := s.active[..e.finished], s.active[e.finished..];
    assert a + b == s.active;
    WeightSum(a, b);
    WeightCounts(a);
    WeightBelow(e.pipe, b);
  }

  lemma PipeUsable(hosts: set<Host>, s: State, e: Exchange)
    requires Sound(hosts, s) && Returns(s, e) && TgtChange !in e.flags
    ensures forall i :: 0 <= i < |e.pipe| ==> Usable(e.pipe[i], s.blacklist)
  {
    forall i | 0 <= i < |e.pipe| ensures Usable(e.pipe[i], s.blacklist) {
      assert Usable(s.active[e.finished + i], s.blacklist);
    }
  }

  // ---------------------------------------------------------------- runs

  /** Steps that something has gone wrong in, or got done. */
  predicate Costs(c: Config, s: State, e: Event)
    requires Enabled(s, e)
  {
    match e
    case Top(d) => Prepare(c, s, d).blacklist != s.blacklist
    case Back(x, _) => s.hint >= 0 && (x.finished > 0 || TgtChange in x.flags || Trouble(Pop(s, x), x.flags))
    case _ => false
  }

  function Brought(e: Event): nat { if e.Append? then 1 + e.t.redirs else 0 }

  lemma StepRanks(c: Config, hosts: set<Host>, s: State, e: Event)
    requires Tidy(s) && Sound(hosts, s) && Enabled(s, e) && ScopedEvent(hosts, e)
    ensures var t := Apply(c, s, e);
      && Sound(hosts, t) && Rank(c, hosts, t) <= Rank(c, hosts, s) + Brought(e)
      && (Costs(c, s, e) ==> Rank(c, hosts, t) < Rank(c, hosts, s))
  {
    hide Prepare, Settle, Pop, Candidates, Usable, HostRank, NoneForgotten;
    match e
    case Append(t) =>
      WeightSum(s.newJobs, [t]);
      assert Weight([t]) == 1 + t.redirs;
    case Top(d) => PrepareRanks(c, hosts, s, d);
    case Back(x, taken) => BackStep(c, hosts, s, x, taken);
    case _ =>
  }

  lemma BackStep(c: Config, hosts: set<Host>, s: State, x: Exchange, taken: set<nat>)
    requires Tidy(s) && Sound(hosts, s) && Returns(s, x) && Within(hosts, x.pipe)
    ensures var t := Post(c, s, x, taken);
      && Sound(hosts, t) && Rank(c, hosts, t) <= Rank(c, hosts, s)
      && (s.hint >= 0 && (x.finished > 0 || TgtChange in x.flags || Trouble(Pop(s, x), x.flags)) ==>
            Rank(c, hosts, t) < Rank(c, hosts, s))
  {
    hide Settle, Candidates, Usable, HostRank, NoneForgotten, AllGone, Rank;
    PopRanks(c, hosts, s, x);
    var r := Pop(s, x);
    assert Within(hosts, r.newJobs) && Within(hosts, r.next) && Within(hosts, r.active);
    if s.hint < 0 { QuitRanks(c, hosts, r); } else { SettleRanks(c, hosts, r, x, taken); }
  }

  lemma QuitRanks(c: Config, hosts: set<Host>, s: State)
    requires Within(hosts, s.newJobs)
    ensures Sound(hosts, Quit(s)) && Rank(c, hosts, Quit(s)) <= Rank(c, hosts, s)
  {
    hide HostRank;
  }

  ghost function Cost(c: Config, s: State, es: seq<Event>): nat
    requires Possible(c, s, es)
    decreases |es|
  {
    if es == [] then 0 else (if Costs(c, s, es[0]) then 1 else 0) + Cost(c, Apply(c, s, es[0]), es[1..])
  }

  function AllBrought(es: seq<Event>): nat {
    if es == [] then 0 else Brought(es[0]) + AllBrought(es[1..])
  }

  /** Bounded retries: in every run, failed connections, lost ones that were not announced,
      broken jobs and mirrors, redirections and finished jobs together are no more than the rank
      at the start and what the jobs added on the way bring. */
  lemma {:induction false} BoundedRetries(c: Config, hosts: set<Host>, s: State, es: seq<Event>)
    requires Tidy(s) && Sound(hosts, s) && Possible(c, s, es)
    requires forall i :: 0 <= i < |es| ==> ScopedEvent(hosts, es[i])
    ensures Cost(c, s, es) + Rank(c, hosts, Run(c, s, es)) <= Rank(c, hosts, s) + AllBrought(es)
    decreases |es|
  {
    hide Apply, Tidy, Sound, Rank, Costs, ScopedEvent;
    if es != [] {
      StepTidy(c, s, es[0]);
      StepRanks(c, hosts, s, es[0]);
      BoundedRetries(c, hosts, Apply(c, s, es[0]), es[1..]);
    }
  }
}
