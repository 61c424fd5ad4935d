/** No job is lost by the agent: not between its lists, not between threads, and not where the
    loop clears its pipeline. */
module Conservation {
  import opened Text
  import opened Decoder
  import opened Agent

  lemma IdsSplit(ts: seq<Task>, n: nat)
    requires n <= |ts|
    ensures Ids(ts) == Ids(ts[..n]) + Ids(ts[n..])
  {
    hide Ids;
    IdsOfSum(ts[..n], ts[n..]);
    assert ts[..n] + ts[n..] == ts;
  }

  lemma SameLists(a: State, b: State)
    requires a.newJobs == b.newJobs && a.next == b.next && a.active == b.active && a.gone == b.gone
    ensures Everywhere(a) == Everywhere(b)
  {
  }

  /** The front of the queue is `x` with the rest behind it. */
  lemma FrontMoves(n: multiset<nat>, x: multiset<nat>, rest: multiset<nat>, a: multiset<nat>, g: multiset<nat>)
    ensures n + rest + (a + x) + g == n + (x + rest) + a + g
    ensures n + rest + a + (g + x) == n + (x + rest) + a + g
  {
  }

  lemma FillOneKeeps(c: Config, s: State)
    requires s.con.Some? && s.next != []
    ensures Everywhere(FillOne(c, s).0) == Everywhere(s)
  {
    hide Setup, Fits, Ids, GoneIds;
    var (t, ok) := Setup(s.next[0], s.blacklist);
    SetupIff(s.next[0], s.blacklist);
    IdsSplit(s.next, 1);
    var x, g := Ids(s.next[..1]), [Gone(s.next[0].id, Unconfigurable)];
    assert Ids([t]) == x && GoneIds(g) == x;
    if !ok {
      GoneOfSum(s.gone, g);
    } else if !Fits(c, s, t) {
      IdsOfSum([t], s.next[1..]);
    } else {
      IdsOfSum(s.active, [t]);
    }
    FrontMoves(multiset(Ids(s.newJobs)), multiset(x), multiset(Ids(s.next[1..])), multiset(Ids(s.active)), multiset(GoneIds(s.gone)));
  }

  lemma {:induction false} FillKeeps(c: Config, s: State)
    requires s.con.Some?
    ensures Everywhere(Fill(c, s)) == Everywhere(s)
    decreases |s.next|
  {
    hide FillOne, Everywhere;
    if s.stop || s.next == [] || |s.active| > c.pipelineLen {
    } else {
      FillOneKeeps(c, s);
      var (r, more) := FillOne(c, s);
      if more { FillKeeps(c, r); }
    }
  }

  lemma TakeKeeps(s: State)
    ensures Everywhere(Take(s)) == Everywhere(s)
  {
    hide Ids, GoneIds;
    IdsOfSum(s.newJobs, s.next);
    assert Ids([]) == [];
  }

  lemma ClearedKeeps(s: State)
    ensures Everywhere(Cleared(s)) == Everywhere(s)
  {
    hide Ids, GoneIds, Purge, AllGone;
    var (kept, dropped) := Purge(s.next, s.blacklist);
    PurgeKeeps(s.next, s.blacklist);
    GoneOfSum(s.gone, AllGone(s.active, Forgotten));
    GoneOfSum(s.gone + AllGone(s.active, Forgotten), dropped);
    GoneAll(s.active, Forgotten);
    assert Ids([]) == [];
  }

  lemma ReopenKeeps(c: Config, s: State, d: Dial)
    ensures Everywhere(Reopen(c, s, d)) == Everywhere(s)
  {
    hide Everywhere, Fill, Cleared;
    ClearedKeeps(s);
    var r := Cleared(s);
    if r.next != [] {
      var q := Connect(c, r, d);
      SameLists(q, r);
      if q.con.Some? {
        FillKeeps(c, q);
        SameLists(Fill(c, q), Fill(c, q).(place := AtSelect));
      }
    } else {
      SameLists(r, r.(place := AtSelect));
    }
  }

  lemma PrepareKeeps(c: Config, s: State, d: Dial)
    ensures Everywhere(Prepare(c, s, d)) == Everywhere(s)
  {
    hide Ids, GoneIds, Fill, Reopen;
    if s.hint < 0 && s.active == [] {
      GoneOfSum(s.gone, AllGone(s.next, ShutDown));
      GoneAll(s.next, ShutDown);
      assert Ids([]) == [];
    } else {
      TakeKeeps(s);
      var r := Take(s);
      if r.next == [] && r.active == [] {
      } else if r.con.None? {
        ReopenKeeps(c, r, d);
      } else {
        FillKeeps(c, r);
      }
    }
  }

  lemma GiveUpKeeps(s: State, collision: bool, taken: set<nat>)
    requires s.active != []
    ensures Everywhere(GiveUp(s, collision, taken)) == Everywhere(s)
  {
    hide Ids, GoneIds, Without;
    IdsSplit(s.active, 1);
    var g := [Gone(s.active[0].id, Broken)];
    GoneOfSum(s.gone, g);
    assert Ids(s.active[..1]) == GoneIds(g);
    var rest := s.(active := s.active[1..], gone := s.gone + g);
    BackMoves(multiset(Ids(s.newJobs)), multiset(Ids(s.next)), multiset(GoneIds(g)), multiset(Ids(rest.active)), multiset(GoneIds(s.gone)));
    assert Everywhere(rest) == Everywhere(s);
    if collision { DropKeeps(rest, taken); }
  }

  lemma DropKeeps(s: State, taken: set<nat>)
    ensures var (a, g1) := Without(s.active, taken);
      var (n, g2) := Without(s.next, taken);
      Everywhere(s.(active := a, next := n, gone := s.gone + g1 + g2)) == Everywhere(s)
  {
    hide Ids, GoneIds, Without;
    var (a, g1) := Without(s.active, taken);
    var (n, g2) := Without(s.next, taken);
    WithoutKeeps(s.active, taken);
    WithoutKeeps(s.next, taken);
    GoneOfSum(s.gone, g1);
    GoneOfSum(s.gone + g1, g2);
  }

  lemma BackKeeps(s: State)
    ensures Everywhere(BackToQueue(s)) == Everywhere(s)
  {
    hide Ids, GoneIds;
    IdsOfSum(s.active, s.next);
    assert Ids([]) == [];
  }

  lemma FailedKeeps(c: Config, s: State, flags: set<Flag>, taken: set<nat>)
    ensures Everywhere(Failed(c, s, flags, taken)) == Everywhere(s)
  {
    hide Ids, GoneIds, GiveUp, BackToQueue;
    if s.active != [] {
      var r := if MirrorBroken in flags then s.(blacklist := s.blacklist + {Peer(s.active[0])}) else s;
      assert Everywhere(r) == Everywhere(s);
      if JobBroken in flags {
        GiveUpKeeps(r, StoreCollision in flags, taken);
        BackKeeps(GiveUp(r, StoreCollision in flags, taken));
      } else {
        BackKeeps(r);
      }
    }
  }

  /** The finished jobs leave the pipeline. */
  lemma PopKeeps(s: State, e: Exchange)
    requires Returns(s, e)
    ensures Everywhere(Pop(s, e)) == Everywhere(s)
  {
    hide GoneIds, Ids, AllGone, Returns;
    SameIds(s, e);
    var a, b := s.active[..e.finished], s.active[e.finished..];
    IdsSplit(s.active, e.finished);
    GoneOfSum(s.gone, AllGone(a, Finished));
    GoneAll(a, Finished);
    BackMoves(multiset(Ids(s.newJobs)), multiset(Ids(s.next)), multiset(Ids(a)), multiset(Ids(b)), multiset(GoneIds(s.gone)));
  }

  lemma BackMoves(n: multiset<nat>, m: multiset<nat>, a: multiset<nat>, b: multiset<nat>, g: multiset<nat>)
    ensures n + m + b + (g + a) == n + m + (a + b) + g
  {
  }

  lemma SameIds(s: State, e: Exchange)
    requires Returns(s, e)
    ensures e.finished <= |s.active| && Ids(e.pipe) == Ids(s.active[e.finished..])
  {
    hide Ids;
    var a, b := Ids(e.pipe), Ids(s.active[e.finished..]);
    assert forall i :: 0 <= i < |a| ==> a[i] == b[i];
  }

  lemma SettleKeeps(c: Config, s: State, e: Exchange, taken: set<nat>)
    ensures Everywhere(Settle(c, s, e, taken)) == Everywhere(s)
  {
    hide Everywhere, Failed, BackToQueue;
    var f := e.flags;
    var q := if s.active == [] then s.(stop := false) else s;
    SameLists(s, q);
    if s.active == [] && s.con.Some? && f * ERRORS == {} {
      SameLists(s, q.(con := None, wire := []));
    } else {
      var p := Reset(q, f);
      SameLists(q, p);
      if TgtChange in f {
        var r := p.(con := None, wire := [], pipeOff := if e.mixed then 30 else p.pipeOff);
        SameLists(p, r);
        BackKeeps(r);
      } else {
        var lost := LostCon in f && p.active != [];
        var o := if lost then Lose(c, p) else p;
        SameLists(p, o);
        var f2 := if lost && Done !in f && !c.vrange && p.active[0].volatile then f + {JobBroken} else f;
        FailedKeeps(c, o, f2, taken);
      }
    }
  }

  lemma PostKeeps(c: Config, s: State, e: Exchange, taken: set<nat>)
    requires Returns(s, e)
    ensures Everywhere(Post(c, s, e, taken)) == Everywhere(s)
  {
    hide Ids, GoneIds, Settle, Returns, AllGone;
    PopKeeps(s, e);
    var r := Pop(s, e);
    if s.hint < 0 {
      GoneOfSum(r.gone, AllGone(r.next + r.active, ShutDown));
      GoneAll(r.next + r.active, ShutDown);
      IdsOfSum(r.next, r.active);
      assert Ids([]) == [];
    } else {
      SettleKeeps(c, r, e, taken);
    }
  }

  function Given(e: Event): multiset<nat> { if e.Append? then multiset{e.t.id} else multiset{} }

  /** Every step keeps every job in exactly one place: only AddJob brings one in. */
  lemma StepConserves(c: Config, s: State, e: Event)
    requires Enabled(s, e)
    ensures Everywhere(Apply(c, s, e)) == Everywhere(s) + Given(e)
  {
    hide Prepare, Post, Ids, GoneIds, Returns;
    match e
    case Append(t) =>
      IdsOfSum(s.newJobs, [t]);
      assert Ids([t]) == [t.id];
    case Top(d) => PrepareKeeps(c, s, d);
    case Back(x, taken) => PostKeeps(c, s, x, taken);
    case _ =>
  }

  // ---------------------------------------------------------------- the pipeline is cleared empty

  predicate NoneForgotten(g: seq<Gone>) { forall i :: 0 <= i < |g| ==> !g[i].why.Forgotten? }

  /** Without a connection there is nothing in the pipeline; so nothing has ever been forgotten
      by clearing it. */
  predicate Tidy(s: State) {
    && (s.con.None? ==> s.active == []) && NoneForgotten(s.gone)
    && (s.place.Exited? ==> s.next == [] && s.active == [])
  }

  lemma {:induction false} FillTidy(c: Config, s: State)
    requires s.con.Some? && NoneForgotten(s.gone)
    ensures var t := Fill(c, s); t.con == s.con && NoneForgotten(t.gone) && t.place == s.place
    decreases |s.next|
  {
    if !(s.stop || s.next == [] || |s.active| > c.pipelineLen) {
      var (r, more) := FillOne(c, s);
      if more { FillTidy(c, r); }
    }
  }

  lemma {:induction false} PurgeReasons(ts: seq<Task>, blacklist: set<Host>)
    ensures NoneForgotten(Purge(ts, blacklist).1)
    decreases |ts|
  {
    hide Setup;
    if ts != [] { PurgeReasons(ts[1..], blacklist); }
  }

  lemma {:induction false} WithoutReasons(ts: seq<Task>, taken: set<nat>)
    ensures NoneForgotten(Without(ts, taken).1)
    decreases |ts|
  {
    if ts != [] { WithoutReasons(ts[1..], taken); }
  }

  lemma ClearedTidy(s: State)
    requires Tidy(s) && s.con.None?
    ensures var t := Cleared(s); NoneForgotten(t.gone) && t.active == [] && t.con == s.con && t.place == s.place && t.wire == s.wire
  {
    hide Purge, AllGone;
    PurgeReasons(s.next, s.blacklist);
    assert AllGone(s.active, Forgotten) == [];
  }

  lemma PrepareTidy(c: Config, s: State, d: Dial)
    requires Tidy(s) && s.place.AtTop?
    ensures Tidy(Prepare(c, s, d))
  {
    hide Fill, Cleared, AllGone;
    var r := Take(s);
    if s.hint < 0 && s.active == [] {
    } else if r.next == [] && r.active == [] {
    } else if r.con.None? {
      ClearedTidy(r);
      var q := Cleared(r);
      if q.next != [] {
        var u := Connect(c, q, d);
        if u.con.Some? { FillTidy(c, u); }
      }
    } else {
      FillTidy(c, r);
    }
  }

  lemma FailedTidy(c: Config, s: State, flags: set<Flag>, taken: set<nat>)
    requires NoneForgotten(s.gone)
    ensures var t := Failed(c, s, flags, taken); NoneForgotten(t.gone) && t.active == [] && t.place == s.place
  {
    hide Without;
    if s.active != [] {
      WithoutReasons(s.active[1..], taken);
      WithoutReasons(s.next, taken);
    }
  }

  lemma PostTidy(c: Config, s: State, e: Exchange, taken: set<nat>)
    requires Tidy(s) && s.place.AtSelect? && Returns(s, e)
    ensures Tidy(Post(c, s, e, taken))
  {
    hide Failed, AllGone;
    var r := Pop(s, e);
    assert NoneForgotten(r.gone);
    if s.hint >= 0 { SettleTidy(c, r, e, taken); }
  }

  lemma SettleTidy(c: Config, s: State, e: Exchange, taken: set<nat>)
    requires NoneForgotten(s.gone) && s.place.AtTop? && (s.con.None? ==> s.active == [])
    requires (Done in e.flags ==> e.flags == {Done}) && (Switch in e.flags ==> e.flags == {Switch})
    ensures Tidy(Settle(c, s, e, taken))
  {
    hide Failed;
    var f := e.flags;
    var q := if s.active == [] then s.(stop := false) else s;
    if !(s.active == [] && s.con.Some? && f * ERRORS == {}) {
      var p := Reset(q, f);
      if TgtChange !in f {
        var lost := LostCon in f && p.active != [];
        var o := if lost then Lose(c, p) else p;
        var f2 := if lost && Done !in f && !c.vrange && p.active[0].volatile then f + {JobBroken} else f;
        FailedTidy(c, o, f2, taken);
      }
    }
  }

  lemma StepTidy(c: Config, s: State, e: Event)
    requires Tidy(s) && Enabled(s, e)
    ensures Tidy(Apply(c, s, e))
  {
    hide Prepare, Post, Returns;
    match e
    case Top(d) => PrepareTidy(c, s, d);
    case Back(x, taken) => PostTidy(c, s, x, taken);
    case _ =>
  }

  // ---------------------------------------------------------------- runs

  ghost predicate Possible(c: Config, s: State, es: seq<Event>)
    decreases |es|
  {
    es == [] || (Enabled(s, es[0]) && Possible(c, Apply(c, s, es[0]), es[1..]))
  }

  ghost function Run(c: Config, s: State, es: seq<Event>): State
    requires Possible(c, s, es)
    decreases |es|
  {
    if es == [] then s else Run(c, Apply(c, s, es[0]), es[1..])
  }

  function AllGiven(es: seq<Event>): multiset<nat> {
    if es == [] then multiset{} else Given(es[0]) + AllGiven(es[1..])
  }

  /** Job conservation, over every run: whatever was added is, exactly as often, in one of the
      three lists or destroyed for a reason; no connection means an empty pipeline, so clearing
      it never destroys a job; and when the loop has ended, only what was handed over too late
      is left. */
  lemma {:induction false} Conservation(c: Config, s: State, es: seq<Event>)
    requires Tidy(s) && Possible(c, s, es)
    ensures var t := Run(c, s, es);
      && Everywhere(t) == Everywhere(s) + AllGiven(es) && Tidy(t)
      && (t.place.Exited? ==> multiset(Ids(t.newJobs)) + multiset(GoneIds(t.gone)) == Everywhere(s) + AllGiven(es))
    decreases |es|
  {
    hide Apply, Ids, GoneIds;
    if es == [] {
      assert Ids([]) == [];
    } else {
      StepConserves(c, s, es[0]);
      StepTidy(c, s, es[0]);
      Conservation(c, Apply(c, s, es[0]), es[1..]);
    }
  }
}
