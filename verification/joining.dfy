/** Every DNS request is answered exactly once, and the cache stays what it should be. */
module Joining {
  import opened Text
  import opened Addresses
  import opened Resolver

  // ---------------------------------------------------------------- everybody is called once

  function Waiting(ctxs: seq<Ctx>): seq<Caller> { if ctxs == [] then [] else ctxs[0].cbs + Waiting(ctxs[1..]) }

  function Callers<T>(p: seq<(Caller, T)>): (r: seq<Caller>)
    ensures |r| == |p| && forall i :: 0 <= i < |p| ==> r[i] == p[i].0
  {
    if p == [] then [] else [p[0].0] + Callers(p[1..])
  }

  /** All who have asked: still posted, waiting for a lookup, or called back. */
  function Asked(d: Dns): multiset<Caller> {
    multiset(Callers(d.posted)) + multiset(Waiting(d.active)) + multiset(Callers(d.called))
  }

  lemma {:induction false} WaitingSum(a: seq<Ctx>, b: seq<Ctx>)
    ensures Waiting(a + b) == Waiting(a) + Waiting(b)
    decreases |a|
  {
    if a == [] {
      assert a + b == b;
    } else {
      WaitingSum(a[1..], b);
      assert (a + b)[1..] == a[1..] + b;
      assert a[0].cbs + (Waiting(a[1..]) + Waiting(b)) == a[0].cbs + Waiting(a[1..]) + Waiting(b);
    }
  }

  /** One lookup among the others. */
  lemma WaitingAt(ctxs: seq<Ctx>, i: nat, x: Ctx)
    requires i < |ctxs|
    ensures var others := Waiting(ctxs[..i]) + Waiting(ctxs[i + 1..]);
      && multiset(Waiting(ctxs)) == multiset(others) + multiset(ctxs[i].cbs)
      && multiset(Waiting(ctxs[i := x])) == multiset(others) + multiset(x.cbs)
      && multiset(Waiting(ctxs[..i] + ctxs[i + 1..])) == multiset(others)
  {
    hide Waiting;
    Middle(ctxs[..i], ctxs[i], ctxs[i + 1..]);
    Middle(ctxs[..i], x, ctxs[i + 1..]);
    assert ctxs == ctxs[..i] + [ctxs[i]] + ctxs[i + 1..];
    assert ctxs[i := x] == ctxs[..i] + [x] + ctxs[i + 1..];
    WaitingSum(ctxs[..i], ctxs[i + 1..]);
  }

  lemma Middle(a: seq<Ctx>, x: Ctx, b: seq<Ctx>)
    ensures Waiting(a + [x] + b) == Waiting(a) + x.cbs + Waiting(b)
  {
    WaitingSum(a + [x], b);
    WaitingSum(a, [x]);
    assert Waiting([x]) == x.cbs + Waiting([]) == x.cbs;
  }

  lemma CallAdds(d: Dns, who: seq<Caller>, a: Answer)
    ensures Callers(Call(d, who, a).called) == Callers(d.called) + who
  {
    hide Callers, Call;
    var r := Call(d, who, a);
    var lhs, rhs := Callers(r.called), Callers(d.called) + who;
    forall i | 0 <= i < |lhs| ensures lhs[i] == rhs[i] {
      if i < |d.called| {
        assert r.called[i] == d.called[i];
      } else {
        assert r.called[|d.called| + (i - |d.called|)] == (who[i - |d.called|], a);
      }
    }
  }

  lemma ReportKeeps(d: Dns, i: nat, a: Answer)
    requires i < |d.active|
    ensures Asked(Report(d, i, a)) == Asked(d)
  {
    hide Callers, Waiting, Call;
    var x := d.active[i];
    WaitingAt(d.active, i, x.(cbs := []));
    CallAdds(d.(active := d.active[i := x.(cbs := [])]), x.cbs, a);
  }

  lemma {:induction false} RejectKeeps(d: Dns, i: nat)
    requires i <= |d.active|
    ensures Asked(RejectFrom(d, i)) == Asked(d)
    decreases |d.active| - i
  {
    hide Asked;
    if i < |d.active| {
      ReportKeeps(d, i, FAILED);
      RejectKeeps(Report(d, i, FAILED), i + 1);
    }
  }

  lemma FinishKeeps(c: Settings, d: Dns, i: nat, now: int)
    requires i < |d.active| && QueueOk(d.cache, d.expQ)
    ensures Asked(Finish(c, d, i, now)) == Asked(d)
  {
    hide Callers, Waiting, Call, Result, Clean, QueueOk;
    var x := d.active[i];
    var (a, keep) := Result(c, x, now);
    var r := d.(active := d.active[..i] + d.active[i + 1..]);
    var (cache, expQ) := Clean(d.cache, d.expQ, now);
    var s := if keep then r.(cache := if x.key in cache then cache else cache[x.key := a], expQ := expQ + [x.key]) else r;
    WaitingAt(d.active, i, x);
    CallAdds(s, x.cbs, a);
  }

  lemma InvokeKeeps(c: Settings, d: Dns, cancelled: bool, haveResolver: bool)
    requires d.posted != []
    ensures Asked(Invoke(c, d, cancelled, haveResolver)) == Asked(d)
  {
    hide Asked, Call, IndexOf;
    var (who, key) := d.posted[0];
    var r := d.(posted := d.posted[1..]);
    var i := IndexOf(d.active, key);
    if cancelled {
      AnswerKeeps(d, FAILED);
    } else if c.cacheTime > 0 && key in d.cache {
      AnswerKeeps(d, d.cache[key]);
    } else if i.Some? {
      JoinKeeps(d, i.value);
    } else if !haveResolver {
      AnswerKeeps(d, FAILED);
    } else {
      BeginKeeps(d);
    }
  }

  /** The first posted request is answered. */
  lemma AnswerKeeps(d: Dns, a: Answer)
    requires d.posted != []
    ensures Asked(Call(d.(posted := d.posted[1..]), [d.posted[0].0], a)) == Asked(d)
  {
    hide Callers, Waiting, Call;
    FirstPosted(d.posted);
    CallAdds(d.(posted := d.posted[1..]), [d.posted[0].0], a);
  }

  /** It joins a lookup. */
  lemma JoinKeeps(d: Dns, i: nat)
    requires d.posted != [] && i < |d.active|
    ensures var x := d.active[i];
      Asked(d.(posted := d.posted[1..], active := d.active[i := x.(cbs := x.cbs + [d.posted[0].0])])) == Asked(d)
  {
    hide Callers, Waiting;
    FirstPosted(d.posted);
    var x := d.active[i];
    WaitingAt(d.active, i, x.(cbs := x.cbs + [d.posted[0].0]));
  }

  /** It begins one. */
  lemma BeginKeeps(d: Dns)
    requires d.posted != []
    ensures var (who, key) := d.posted[0];
      Asked(d.(posted := d.posted[1..], active := d.active + [Ctx(key, [who], false, [])])) == Asked(d)
  {
    hide Callers, Waiting;
    var (who, key) := d.posted[0];
    FirstPosted(d.posted);
    WaitingSum(d.active, [Ctx(key, [who], false, [])]);
    OnlyOne(Ctx(key, [who], false, []));
  }

  lemma FirstPosted(p: seq<(Caller, Key)>)
    requires p != []
    ensures Callers(p) == [p[0].0] + Callers(p[1..])
  {
  }

  lemma OnlyOne(x: Ctx)
    ensures Waiting([x]) == x.cbs
  {
    assert Waiting([]) == [] && x.cbs + [] == x.cbs;
  }

  lemma SameWaiters(d: Dns, i: nat, x: Ctx)
    requires i < |d.active| && x.cbs == d.active[i].cbs
    ensures Asked(d.(active := d.active[i := x])) == Asked(d)
  {
    hide Waiting;
    WaitingAt(d.active, i, x);
  }

  function Asks(e: Event): multiset<Caller> { if e.Resolve? then multiset{e.who} else multiset{} }

  /** No step loses a caller or calls one twice. */
  lemma StepKeepsCallers(c: Settings, d: Dns, e: Event)
    requires Enabled(d, e) && QueueOk(d.cache, d.expQ)
    ensures Asked(Apply(c, d, e)) == Asked(d) + Asks(e)
  {
    hide Asked, Invoke, Finish, RejectFrom, Report, QueueOk;
    match e
    case Resolve(who, key) => OneMorePosted(d, who, key);
    case Run(cancelled, haveResolver) => InvokeKeeps(c, d, cancelled, haveResolver);
    case SrvReply(i, ok, hosts, now) =>
      var x := d.active[i].(queried := true, tasks := if ok then seq(hosts, _ => None) else []);
      var r := d.(active := d.active[i := x]);
      SameWaiters(d, i, x);
      if ok {
        FinishKeeps(c, r, i, now);
      } else {
        ReportKeeps(r, i, FAILED);
        ReportLeaves(r, i, FAILED);
        FinishKeeps(c, Report(r, i, FAILED), i, now);
      }
    case TaskReply(i, t, result, now) =>
      var x := d.active[i].(tasks := d.active[i].tasks[t := Some(result)]);
      SameWaiters(d, i, x);
      FinishKeeps(c, d.(active := d.active[i := x]), i, now);
    case Reject => RejectKeeps(d, 0);
  }

  lemma ReportLeaves(d: Dns, i: nat, a: Answer)
    requires i < |d.active|
    ensures var r := Report(d, i, a);
      r.cache == d.cache && r.expQ == d.expQ && r.posted == d.posted && r.active == d.active[i := d.active[i].(cbs := [])]
  {
  }

  lemma OneMorePosted(d: Dns, who: Caller, key: Key)
    ensures Asked(d.(posted := d.posted + [(who, key)])) == Asked(d) + multiset{who}
  {
    hide Waiting, Callers;
    assert Callers(d.posted + [(who, key)]) == Callers(d.posted) + [who];
  }

  // ---------------------------------------------------------------- cache and lookups

  /** The cache is bounded, its queue a permutation of its keys; no key is looked up twice at a
      time or while it is cached; and every lookup has a query outstanding. */
  ghost predicate Inv(c: Settings, d: Dns) {
    && QueueOk(d.cache, d.expQ) && |d.expQ| <= CACHE_MAX - 1
    && (c.cacheTime <= 0 ==> d.cache == map[])
    && (forall i, j :: 0 <= i < j < |d.active| ==> d.active[i].key != d.active[j].key)
    && (forall i :: 0 <= i < |d.active| ==> d.active[i].key !in d.cache && !Over(d.active[i]))
  }

  lemma {:induction false} QueueSize(cache: map<Key, Answer>, expQ: seq<Key>)
    requires QueueOk(cache, expQ)
    ensures |cache| == |expQ|
    decreases |expQ|
  {
    if expQ == [] {
      assert cache == map[];
    } else {
      TailOk(cache, expQ);
      QueueSize(cache - {expQ[0]}, expQ[1..]);
      assert (cache - {expQ[0]}).Keys == cache.Keys - {expQ[0]};
    }
  }

  lemma {:induction false} CleanFits(cache: map<Key, Answer>, expQ: seq<Key>, now: int)
    requires QueueOk(cache, expQ)
    ensures |Clean(cache, expQ, now).1| < CACHE_MAX - 1
  {
    var (c, q) := Clean(cache, expQ, now);
    QueueSize(c, q);
  }

  /** All but one lookup, as they were. */
  ghost predicate InvBut(c: Settings, d: Dns, i: nat)
    requires i < |d.active|
  {
    && QueueOk(d.cache, d.expQ) && |d.expQ| <= CACHE_MAX - 1
    && (c.cacheTime <= 0 ==> d.cache == map[])
    && (forall i, j :: 0 <= i < j < |d.active| ==> d.active[i].key != d.active[j].key)
    && (forall j :: 0 <= j < |d.active| ==> d.active[j].key !in d.cache && (j != i ==> !Over(d.active[j])))
  }

  lemma FinishInv(c: Settings, d: Dns, i: nat, now: int)
    requires i < |d.active| && InvBut(c, d, i)
    ensures Inv(c, Finish(c, d, i, now))
  {
    hide Clean, Result, Call, Over;
    var x := d.active[i];
    var (a, keep) := Result(c, x, now);
    var rest := d.active[..i] + d.active[i + 1..];
    assert forall j :: 0 <= j < |rest| ==> rest[j] == d.active[if j < i then j else j + 1];
    var (cache, expQ) := Clean(d.cache, d.expQ, now);
    CleanFits(d.cache, d.expQ, now);
    assert x.key !in cache;
    if keep {
      Inserted(cache, expQ, x.key, a);
      assert c.cacheTime > 0 by { KeptMeansCaching(c, x, now); }
    }
  }

  lemma KeptMeansCaching(c: Settings, x: Ctx, now: int)
    requires Result(c, x, now).1
    ensures c.cacheTime > 0
  {
  }

  lemma Inserted(cache: map<Key, Answer>, expQ: seq<Key>, key: Key, a: Answer)
    requires QueueOk(cache, expQ) && key !in cache
    ensures QueueOk(cache[key := a], expQ + [key])
  {
  }

  lemma EndInv(c: Settings, d: Dns, i: nat, now: int)
    requires i < |d.active| && InvBut(c, d, i)
    ensures Inv(c, EndIfOver(c, d, i, now))
  {
    hide Finish;
    if Over(d.active[i]) { FinishInv(c, d, i, now); }
  }

  /** The same lookups, with other callers. */
  lemma {:induction false} RejectLeaves(d: Dns, i: nat)
    requires i <= |d.active|
    ensures var r := RejectFrom(d, i);
      && r.cache == d.cache && r.expQ == d.expQ && |r.active| == |d.active|
      && (forall j :: 0 <= j < |d.active| ==> r.active[j] == d.active[j].(cbs := r.active[j].cbs))
    decreases |d.active| - i
  {
    if i < |d.active| { RejectLeaves(Report(d, i, FAILED), i + 1); }
  }

  lemma ChangedInv(c: Settings, d: Dns, i: nat, x: Ctx)
    requires Inv(c, d) && i < |d.active| && x.key == d.active[i].key
    ensures InvBut(c, d.(active := d.active[i := x]), i)
    ensures !Over(x) ==> Inv(c, d.(active := d.active[i := x]))
  {
    hide Over, QueueOk;
  }

  lemma InvokeInv(c: Settings, d: Dns, cancelled: bool, haveResolver: bool)
    requires Inv(c, d) && d.posted != []
    ensures Inv(c, Invoke(c, d, cancelled, haveResolver))
  {
    hide QueueOk, Call;
    var (who, key) := d.posted[0];
    var i := IndexOf(d.active, key);
    if i.Some? {
      var x := d.active[i.value];
      ChangedInv(c, d, i.value, x.(cbs := x.cbs + [who]));
    }
  }

  lemma StepInv(c: Settings, d: Dns, e: Event)
    requires Inv(c, d) && Enabled(d, e)
    ensures Inv(c, Apply(c, d, e))
  {
    hide QueueOk, Invoke, Finish, Report, RejectFrom, EndIfOver, Over;
    match e
    case Resolve(who, key) =>
    case Run(cancelled, haveResolver) => InvokeInv(c, d, cancelled, haveResolver);
    case SrvReply(i, ok, hosts, now) =>
      var x := d.active[i].(queried := true, tasks := if ok then seq(hosts, _ => None) else []);
      var r := d.(active := d.active[i := x]);
      ChangedInv(c, d, i, x);
      if ok {
        EndInv(c, r, i, now);
      } else {
        ReportLeaves(r, i, FAILED);
        ChangedInv(c, d, i, x.(cbs := []));
        assert r.active[i := x.(cbs := [])] == d.active[i := x.(cbs := [])];
        EndInv(c, Report(r, i, FAILED), i, now);
      }
    case TaskReply(i, t, result, now) =>
      var x := d.active[i].(tasks := d.active[i].tasks[t := Some(result)]);
      ChangedInv(c, d, i, x);
      EndInv(c, d.(active := d.active[i := x]), i, now);
    case Reject =>
      RejectLeaves(d, 0);
      var r := RejectFrom(d, 0);
      forall j | 0 <= j < |r.active| ensures r.active[j].key == d.active[j].key && !Over(r.active[j]) { SameOver(d.active[j], r.active[j].cbs); }
  }

  lemma SameOver(x: Ctx, cbs: seq<Caller>)
    ensures Over(x.(cbs := cbs)) == Over(x)
  {
  }

  // ---------------------------------------------------------------- runs

  ghost predicate Possible(c: Settings, d: Dns, es: seq<Event>)
    decreases |es|
  {
    es == [] || (Enabled(d, es[0]) && QueueOk(d.cache, d.expQ) && Possible(c, Apply(c, d, es[0]), es[1..]))
  }

  ghost function RunAll(c: Settings, d: Dns, es: seq<Event>): Dns
    requires Possible(c, d, es)
    decreases |es|
  {
    if es == [] then d else RunAll(c, Apply(c, d, es[0]), es[1..])
  }

  function AllAsks(es: seq<Event>): multiset<Caller> {
    if es == [] then multiset{} else Asks(es[0]) + AllAsks(es[1..])
  }

  lemma {:induction false} RunKeeps(c: Settings, d: Dns, es: seq<Event>)
    requires Inv(c, d) && Possible(c, d, es)
    ensures var t := RunAll(c, d, es); Inv(c, t) && Asked(t) == Asked(d) + AllAsks(es)
    decreases |es|
  {
    hide Inv, Apply, Asked;
    if es != [] {
      StepKeepsCallers(c, d, es[0]);
      StepInv(c, d, es[0]);
      RunKeeps(c, Apply(c, d, es[0]), es[1..]);
    }
  }

  const EMPTY: Dns := Dns([], [], map[], [], [])

  /** Over every run, errors and shutdown included: each request is, once, still posted, waiting
      for a lookup that has something outstanding, or called back; cached keys and those looked up
      are different ones; the expiry queue is a permutation of the cached keys, and there are at
      most 254 of them. When nothing is posted and no lookup runs, everybody has been called back,
      exactly as often as they asked. */
  lemma EveryoneIsCalledOnce(c: Settings, es: seq<Event>)
    requires Possible(c, EMPTY, es)
    ensures var t := RunAll(c, EMPTY, es);
      && multiset(Callers(t.posted)) + multiset(Waiting(t.active)) + multiset(Callers(t.called)) == AllAsks(es)
      && (t.posted == [] && t.active == [] ==> multiset(Callers(t.called)) == AllAsks(es))
      && (forall i :: 0 <= i < |t.active| ==> t.active[i].key !in t.cache && !Over(t.active[i]))
      && QueueOk(t.cache, t.expQ) && |t.cache| <= 254
  {
    hide Over, Callers, Waiting;
    StartOk(c);
    RunKeeps(c, EMPTY, es);
    var t := RunAll(c, EMPTY, es);
    QueueSize(t.cache, t.expQ);
    NobodyYet();
  }

  lemma NobodyYet()
    ensures Callers(EMPTY.posted) == [] && Waiting(EMPTY.active) == [] && Callers(EMPTY.called) == []
  {
  }

  lemma StartOk(c: Settings)
    ensures Inv(c, EMPTY) && Asked(EMPTY) == multiset{}
  {
  }

  /** A lookup that is cancelled tells its callers about a temporary error, and leaves that error
      in the cache for the next ones, whenever there is one. */
  lemma CancelledIsKept(c: Settings, d: Dns, i: nat, hosts: nat, now: int)
    requires Inv(c, d) && Enabled(d, SrvReply(i, false, hosts, now))
    ensures var t := Apply(c, d, SrvReply(i, false, hosts, now));
      && (d.active[i].key in t.cache <==> c.cacheTime > 0)
      && (d.active[i].key in t.cache ==> t.cache[d.active[i].key].failed)
  {
    hide Clean, Call, Refined, Report;
    var x := d.active[i].(queried := true, tasks := []);
    ReportLeaves(d.(active := d.active[i := x]), i, FAILED);
    NoNodes(c.prefs);
  }

  lemma NoNodes(p: Prefs)
    ensures AllNodes([]) == [] && Refined(p, []) == []
  {
    assert FirstWanted(p, Dedup([], []), MAX_ADDR) == [];
    assert OfFamily([], V4) == [] && OfFamily([], V6) == [];
  }
}
