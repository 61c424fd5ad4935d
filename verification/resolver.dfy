/** Joining of DNS requests (CAddrInfo::Resolve, tDnsResContext and clean_dns_cache in
    src/caddrinfo.cc): one lookup for all who ask at the same time, its result kept for later. */
module Resolver {
  import opened Text
  import opened Addresses

  /** Host and port; and who is to be called back. */
  type Key = string
  type Caller = nat

  datatype Status = Success | NotImplemented | NotFound | Cancelled | NoMemory | OtherError

  /** The outcome of one address query of a lookup. */
  datatype TaskResult = TaskResult(status: Status, nodes: Option<seq<Node>>)

  datatype Answer = Answer(addrs: seq<Addr>, failed: bool, expTime: int)

  /** A lookup: who waits for it, and its queries, with their results as they come in. */
  datatype Ctx = Ctx(key: Key, cbs: seq<Caller>, queried: bool, tasks: seq<Option<TaskResult>>)

  datatype Settings = Settings(cacheTime: int, prefs: Prefs)

  const CACHE_MAX: nat := 255

  /** `posted` are the requests handed to the event loop; `called` records every callback. */
  datatype Dns = Dns(posted: seq<(Caller, Key)>, active: seq<Ctx>, cache: map<Key, Answer>, expQ: seq<Key>,
                     called: seq<(Caller, Answer)>)

  const FAILED: Answer := Answer([], true, 0)

  // ---------------------------------------------------------------- one request

  function IndexOf(ctxs: seq<Ctx>, key: Key): (r: Option<nat>)
    ensures r.Some? ==> r.value < |ctxs| && ctxs[r.value].key == key
    ensures r.None? ==> forall i :: 0 <= i < |ctxs| ==> ctxs[i].key != key
  {
    if ctxs == [] then None
    else if ctxs[0].key == key then Some(0)
    else
      var r := IndexOf(ctxs[1..], key);
      if r.None? then (assert forall i :: 0 < i < |ctxs| ==> ctxs[i] == ctxs[1..][i - 1]; None) else Some(r.value + 1)
  }

  /** All of these are called back with the answer, in turn. */
  function Call(d: Dns, who: seq<Caller>, a: Answer): (r: Dns)
    ensures r.posted == d.posted && r.active == d.active && r.cache == d.cache && r.expQ == d.expQ
    ensures |r.called| == |d.called| + |who| && d.called <= r.called
    ensures forall i :: 0 <= i < |who| ==> r.called[|d.called| + i] == (who[i], a)
    decreases |who|
  {
    if who == [] then d else Call(d.(called := d.called + [(who[0], a)]), who[1..], a)
  }

  /** The posted closure runs: answered at once, or it joins a lookup, or starts one. */
  function Invoke(c: Settings, d: Dns, cancelled: bool, haveResolver: bool): Dns
    requires d.posted != []
  {
    var (who, key) := d.posted[0];
    var r := d.(posted := d.posted[1..]);
    if cancelled then Call(r, [who], FAILED)
    else if c.cacheTime > 0 && key in d.cache then Call(r, [who], d.cache[key])
    else
      var i := IndexOf(d.active, key);
      if i.Some? then
        var x := d.active[i.value];
        r.(active := d.active[i.value := x.(cbs := x.cbs + [who])])
      else if !haveResolver then Call(r, [who], FAILED)
      else r.(active := d.active + [Ctx(key, [who], false, [])])
  }

  /** Everybody who waits for lookup `i` is told, and has no more to wait for. */
  function Report(d: Dns, i: nat, a: Answer): Dns
    requires i < |d.active|
  {
    Call(d.(active := d.active[i := d.active[i].(cbs := [])]), d.active[i].cbs, a)
  }

  // ---------------------------------------------------------------- the end of a lookup

  function AllNodes(tasks: seq<Option<TaskResult>>): seq<Node> {
    if tasks == [] then []
    else (if tasks[0].Some? && tasks[0].value.nodes.Some? then tasks[0].value.nodes.value else []) + AllNodes(tasks[1..])
  }

  function FirstError(tasks: seq<Option<TaskResult>>): Status {
    if tasks == [] then Success
    else if tasks[0].Some? && !tasks[0].value.status.Success? then tasks[0].value.status
    else FirstError(tasks[1..])
  }

  predicate Transient(s: Status) { s.NotImplemented? || s.NotFound? || s.Cancelled? || s.NoMemory? }

  /** The expiry queue holds the keys of the cache, each once. */
  ghost predicate QueueOk(cache: map<Key, Answer>, expQ: seq<Key>) {
    && (forall i, j :: 0 <= i < j < |expQ| ==> expQ[i] != expQ[j])
    && (forall k :: k in expQ <==> k in cache)
  }

  lemma TailOk(cache: map<Key, Answer>, expQ: seq<Key>)
    requires QueueOk(cache, expQ) && expQ != []
    ensures QueueOk(cache - {expQ[0]}, expQ[1..]) && expQ[0] in cache
  {
    assert expQ == [expQ[0]] + expQ[1..];
  }

  /** clean_dns_cache: make room, and drop entries from the front as long as their time lies
      ahead. */
  function Clean(cache: map<Key, Answer>, expQ: seq<Key>, now: int): (r: (map<Key, Answer>, seq<Key>))
    requires QueueOk(cache, expQ)
    ensures QueueOk(r.0, r.1) && (forall k :: k in r.0 ==> k in cache && r.0[k] == cache[k])
    ensures r.1 == [] || |r.0| < CACHE_MAX - 1
    decreases |expQ|
  {
    if expQ == [] then (cache, expQ)
    else
      TailOk(cache, expQ);
      if |cache| >= CACHE_MAX - 1 || cache[expQ[0]].expTime >= now then Clean(cache - {expQ[0]}, expQ[1..], now)
      else (cache, expQ)
  }

  /** What the callers get, and whether it is kept. */
  function Result(c: Settings, x: Ctx, now: int): (Answer, bool) {
    var addrs := Refined(c.prefs, AllNodes(x.tasks));
    if addrs != [] then (Answer(addrs, false, now + c.cacheTime), c.cacheTime > 0)
    else if Transient(FirstError(x.tasks)) then (FAILED, false)
    else (Answer([], true, now + if c.cacheTime < 10 then c.cacheTime else 10), c.cacheTime > 0)
  }

  /** ~tDnsResContext for lookup `i`. */
  function Finish(c: Settings, d: Dns, i: nat, now: int): Dns
    requires i < |d.active| && QueueOk(d.cache, d.expQ)
  {
    var x := d.active[i];
    var (a, keep) := Result(c, x, now);
    var r := d.(active := d.active[..i] + d.active[i + 1..]);
    var (cache, expQ) := Clean(d.cache, d.expQ, now);
    var s := if keep then r.(cache := if x.key in cache then cache else cache[x.key := a], expQ := expQ + [x.key]) else r;
    Call(s, x.cbs, a)
  }

  predicate Over(x: Ctx) { x.queried && forall t :: 0 <= t < |x.tasks| ==> x.tasks[t].Some? }

  // ---------------------------------------------------------------- events

  datatype Event =
    | Resolve(who: Caller, key: Key)
    | Run(cancelled: bool, haveResolver: bool)
    | SrvReply(i: nat, ok: bool, hosts: nat, now: int)
    | TaskReply(i: nat, t: nat, result: TaskResult, now: int)
    | Reject

  predicate Enabled(d: Dns, e: Event) {
    match e
    case Resolve(who, key) => true
    case Run(_, _) => d.posted != []
    case SrvReply(i, ok, hosts, _) => i < |d.active| && !d.active[i].queried && (ok ==> hosts > 0)
    case TaskReply(i, t, _, _) => i < |d.active| && t < |d.active[i].tasks| && d.active[i].tasks[t].None?
    case Reject => true
  }

  function RejectFrom(d: Dns, i: nat): Dns
    requires i <= |d.active|
    decreases |d.active| - i
  {
    if i == |d.active| then d
    else
      RejectFrom(Report(d, i, FAILED), i + 1)
  }

  /** A lookup whose last query has answered ends. */
  function EndIfOver(c: Settings, d: Dns, i: nat, now: int): Dns
    requires i < |d.active| && QueueOk(d.cache, d.expQ)
  {
    if Over(d.active[i]) then Finish(c, d, i, now) else d
  }

  function Apply(c: Settings, d: Dns, e: Event): Dns
    requires Enabled(d, e) && QueueOk(d.cache, d.expQ)
  {
    match e
    case Resolve(who, key) => d.(posted := d.posted + [(who, key)])
    case Run(cancelled, haveResolver) => Invoke(c, d, cancelled, haveResolver)
    case SrvReply(i, ok, hosts, now) =>
      // cancelled or out of memory: all are told, and nothing more is asked
      var x := d.active[i].(queried := true, tasks := if ok then seq(hosts, _ => None) else []);
      var r := d.(active := d.active[i := x]);
      EndIfOver(c, if ok then r else Report(r, i, FAILED), i, now)
    case TaskReply(i, t, result, now) =>
      var x := d.active[i];
      EndIfOver(c, d.(active := d.active[i := x.(tasks := x.tasks[t := Some(result)])]), i, now)
    case Reject => RejectFrom(d, 0)
  }
}
