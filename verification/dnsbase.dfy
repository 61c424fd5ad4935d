/** The DNS cache and the running lookups as they are in src/caddrinfo.cc: tables and queues that
    the event loop works on in place. */
module DnsBase {
  import opened Text
  import opened Addresses
  import opened Resolver
  import opened Joining

  class DnsCache {
    var posted: seq<(Caller, Key)>
    var active: seq<Ctx>
    var cache: map<Key, Answer>
    var expQ: seq<Key>
    var called: seq<(Caller, Answer)>
    const settings: Settings

    function State(): Dns
      reads this
    {
      Dns(posted, active, cache, expQ, called)
    }

    constructor (c: Settings)
      ensures State() == Dns([], [], map[], [], []) && settings == c
    {
      posted, active, cache, expQ, called, settings := [], [], map[], [], [], c;
    }

    /** runCallbacks. */
    method RunCallbacks(cbs: seq<Caller>, res: Answer)
      modifies `called
      ensures State() == Call(old(State()), cbs, res)
    {
      var i := 0;
      assert cbs[0..] == cbs;
      while i < |cbs|
        invariant 0 <= i <= |cbs| && posted == old(posted) && active == old(active) && cache == old(cache) && expQ == old(expQ)
        invariant Call(State(), cbs[i..], res) == Call(old(State()), cbs, res)
      {
        assert cbs[i..][1..] == cbs[i + 1..];
        called := called + [(cbs[i], res)];
        i := i + 1;
      }
    }

    /** clean_dns_cache. The queue is never empty while the cache is full. */
    method CleanDnsCache(now: int)
      requires QueueOk(cache, expQ)
      modifies `cache, `expQ
      ensures (cache, expQ) == Clean(old(cache), old(expQ), now)
    {
      ghost var goal := Clean(cache, expQ, now);
      TailFirst(cache, expQ);
      while |cache| >= CACHE_MAX - 1 || (expQ != [] && cache[expQ[0]].expTime >= now)
        invariant QueueOk(cache, expQ) && Clean(cache, expQ, now) == goal
        invariant expQ != [] ==> expQ[0] in cache
        decreases |expQ|
      {
        QueueSize(cache, expQ);
        TailOk(cache, expQ);
        TailFirst(cache - {expQ[0]}, expQ[1..]);
        cache := cache - {expQ[0]};
        expQ := expQ[1..];
      }
    }

    static lemma TailFirst(cache: map<Key, Answer>, expQ: seq<Key>)
      requires QueueOk(cache, expQ)
      ensures expQ != [] ==> expQ[0] in cache
    {
    }

    /** The closure that Resolve posts. */
    method RunPosted(cancelled: bool, haveResolver: bool)
      requires posted != []
      modifies this
      ensures State() == Invoke(settings, old(State()), cancelled, haveResolver)
    {
      var (rep, key) := posted[0];
      posted := posted[1..];
      if cancelled {
        RunCallbacks([rep], FAILED);
        return;
      }
      if settings.cacheTime > 0 && key in cache {
        RunCallbacks([rep], cache[key]);
        return;
      }
      var resIt := IndexOf(active, key);
      if resIt.Some? {
        var x := active[resIt.value];
        active := active[resIt.value := x.(cbs := x.cbs + [rep])];
        return;
      }
      if !haveResolver {
        RunCallbacks([rep], FAILED);
        return;
      }
      active := active + [Ctx(key, [rep], false, [])];
    }

    /** The address list, from the results of all the queries. */
    method Collect(x: Ctx) returns (infos: seq<Addr>)
      ensures infos == Refined(settings.prefs, AllNodes(x.tasks))
    {
      var dedup := Deduplicate(AllNodes(x.tasks));
      var q4, q6 := Distribute(settings.prefs, dedup);
      infos := TakeInTurns(settings.prefs.first6, q4, q6);
    }

    /** ~tDnsResContext. */
    method Destroy(i: nat, now: int)
      requires i < |active| && QueueOk(cache, expQ)
      modifies this
      ensures State() == Finish(settings, old(State()), i, now)
    {
      hide Refined, Clean, AllNodes, FirstError, Call;
      var x := active[i];
      active := active[..i] + active[i + 1..];
      var infos := Collect(x);
      var ret, keep := FAILED, false;
      if infos != [] {
        ret, keep := Answer(infos, false, now + settings.cacheTime), settings.cacheTime > 0;
      } else if !Transient(FirstError(x.tasks)) {
        ret := Answer([], true, now + if settings.cacheTime < 10 then settings.cacheTime else 10);
        keep := settings.cacheTime > 0;
      }
      if keep {
        CleanDnsCache(now);
        if x.key !in cache { cache := cache[x.key := ret]; }
        expQ := expQ + [x.key];
      }
      RunCallbacks(x.cbs, ret);
    }

    /** RejectPendingDnsRequests. */
    method RejectPending()
      modifies this
      ensures State() == RejectFrom(old(State()), 0)
    {
      hide Call;
      var i := 0;
      while i < |active|
        invariant 0 <= i <= |active| && RejectFrom(State(), i) == RejectFrom(old(State()), 0)
      {
        var cbs := active[i].cbs;
        ghost var next := Report(State(), i, FAILED);
        active := active[i := active[i].(cbs := [])];
        RunCallbacks(cbs, FAILED);
        assert State() == next;
        i := i + 1;
      }
    }
  }
}
