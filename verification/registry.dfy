/** The registry of cache items (src/acregistry.cc): which object stands for a path, who holds it,
    and when it goes. The objects are shared; `holders` records, for the proof, who has one. */
module Registry {
  import opened Text
  import opened ItemStatus

  datatype Attr = Attr(volatile: bool, headOnly: bool, noStore: bool, rangeLimit: int)

  datatype Sharing = AlwaysTrySharing | AutoMoveOutOfTheWay | ForceMoveOutOfTheWay

  datatype Settings = Settings(stuckSecs: int, maxTempDelay: nat, inShutdown: bool)

  /** What link and unlink do: succeed, find no file, or fail for another reason. */
  datatype FsResult = Ok | NoEntry | Failed

  class Item {
    var pathRel: string
    var usercount: int
    var owned: bool
    var globRef: Option<string>
    var attr: Attr
    var mustDisplace: bool
    var status: Status
    var code: int
    var timeStarted: int
    var abandoned: bool

    constructor (path: string, attr: Attr)
      ensures pathRel == path && usercount == 0 && !owned && globRef.None? && this.attr == attr && status.Fresh? && !abandoned && !mustDisplace
    {
      pathRel, usercount, owned, globRef, this.attr := path, 0, false, None, attr;
      mustDisplace, status, code, timeStarted, abandoned := false, Fresh, 500, 0, false;
    }
  }

  /** A queued item is a holder, too. */
  datatype Entry = Entry(item: Item, expires: int)

  /** How often an item is in the queue. */
  function Queued(q: seq<Entry>, i: Item): nat {
    if q == [] then 0 else Queued(q[..|q| - 1], i) + if q[|q| - 1].item == i then 1 else 0
  }

  lemma QueuedOneMore(q: seq<Entry>, e: Entry, i: Item)
    ensures Queued(q + [e], i) == Queued(q, i) + if e.item == i then 1 else 0
  {
    assert (q + [e])[..|q|] == q;
  }

  lemma {:induction false} QueuedSum(a: seq<Entry>, b: seq<Entry>, i: Item)
    ensures Queued(a + b, i) == Queued(a, i) + Queued(b, i)
    decreases |b|
  {
    if b == [] {
      assert a + b == a;
    } else {
      QueuedSum(a, b[..|b| - 1], i);
      assert (a + b)[..|a + b| - 1] == a + b[..|b| - 1];
    }
  }

  lemma QueuedFirst(q: seq<Entry>, i: Item)
    requires q != []
    ensures Queued(q, i) == Queued(q[1..], i) + if q[0].item == i then 1 else 0
  {
    assert q == [q[0]] + q[1..];
    QueuedSum([q[0]], q[1..], i);
    assert [q[0]][..0] == [];
  }

  /** When a finished volatile item is let go; the conditional takes the whole sum for its test. */
  function ExpDate(cfg: Settings, started: int, now: int): int {
    if cfg.maxTempDelay + started != 0 then started else now
  }

  /** So nothing is kept for later, unless its download seems to have started in the future. */
  lemma KeptIff(cfg: Settings, started: int, now: int)
    requires cfg.maxTempDelay > 0 && 0 <= started && 0 <= now
    ensures ExpDate(cfg, started, now) > now <==> started > now
  {
  }

  class TFileItemRegistry {
    var mapItems: map<string, Item>
    var prolongedLifetimeQ: seq<Entry>
    // all items ever handed out, and how many holders each has outside the queue
    ghost var holders: map<Item, nat>
    // items handed out uncounted, after a conflict
    ghost var loose: set<Item>

    /** Who holds it, in the queue or outside. */
    ghost function Users(i: Item): nat
      reads this
    {
      (if i in holders then holders[i] else 0) + Queued(prolongedLifetimeQ, i)
    }

    /** An item with an owner is the one of its path, and somebody has it. */
    ghost predicate Registered(i: Item)
      reads this, i
    {
      && i.globRef == Some(i.pathRel) && i.pathRel in mapItems && mapItems[i.pathRel] == i && i.usercount >= 1
    }

    ghost predicate Counted(i: Item)
      reads this, i
    {
      i !in loose ==> i.usercount == Users(i)
    }

    ghost predicate ItemOk(i: Item)
      reads this, i
    {
      Counted(i) && if i.owned then Registered(i) && i !in loose else i.globRef.None?
    }

    ghost predicate Valid()
      reads this, holders.Keys
    {
      && loose <= holders.Keys
      && (forall p :: p in mapItems ==> mapItems[p] in holders && mapItems[p].owned && mapItems[p].pathRel == p)
      && (forall i :: i in holders ==> ItemOk(i))
      && (forall k :: 0 <= k < |prolongedLifetimeQ| ==> prolongedLifetimeQ[k].item in holders)
    }

    constructor ()
      ensures Valid() && mapItems == map[] && holders == map[] && prolongedLifetimeQ == []
    {
      mapItems, prolongedLifetimeQ, holders, loose := map[], [], map[], {};
    }

    /** Nobody who is not known is in the queue. */
    lemma NotQueued(i: Item)
      requires Valid() && i !in holders
      ensures Queued(prolongedLifetimeQ, i) == 0
    {
      NotIn(prolongedLifetimeQ, i);
    }

    /** One user less, and others are left; or the item was never counted. */
    method StillUsed(i: Item)
      requires Valid() && i in holders && holders[i] > 0 && i.usercount > 1
      modifies `holders, i`usercount
      ensures Valid() && i.usercount == old(i.usercount) - 1 && holders == old(holders)[i := old(holders[i]) - 1]
    {
      hide Queued;
      assert ItemOk(i);
      holders := holders[i := holders[i] - 1];
      i.usercount := i.usercount - 1;
      forall j | j in holders ensures ItemOk(j) { assert old(ItemOk(j)); }
    }

    /** The last user hands the item over to the queue. */
    method KeepForLater(i: Item, expDate: int)
      requires Valid() && i in holders && holders[i] > 0
      modifies `holders, `prolongedLifetimeQ
      ensures Valid() && holders == old(holders)[i := old(holders[i]) - 1]
      ensures prolongedLifetimeQ == old(prolongedLifetimeQ) + [Entry(i, expDate)]
    {
      hide Queued;
      holders := holders[i := holders[i] - 1];
      prolongedLifetimeQ := prolongedLifetimeQ + [Entry(i, expDate)];
      forall j | j in holders ensures ItemOk(j) {
        assert old(ItemOk(j));
        QueuedOneMore(old(prolongedLifetimeQ), Entry(i, expDate), j);
      }
    }

    /** The item is no longer its path's own; who has it keeps it. */
    method Unreg(i: Item)
      requires Valid() && i in holders && i.owned
      modifies `mapItems, i`globRef, i`owned
      ensures Valid() && mapItems == old(mapItems) - {i.pathRel} && !i.owned
    {
      hide Queued;
      assert ItemOk(i);
      mapItems := mapItems - {i.globRef.value};
      i.globRef := None;
      i.owned := false;
      forall j | j in holders ensures ItemOk(j) { assert old(ItemOk(j)); }
    }

    method Uncount(i: Item)
      requires Valid() && i in holders && holders[i] > 0 && !i.owned
      modifies `holders, i`usercount
      ensures Valid() && holders == old(holders)[i := old(holders[i]) - 1]
    {
      hide Queued;
      assert ItemOk(i);
      holders := holders[i := holders[i] - 1];
      i.usercount := i.usercount - 1;
      forall j | j in holders ensures ItemOk(j) { assert old(ItemOk(j)); }
    }

    method Stop(i: Item)
      requires Valid()
      modifies i`status, i`code
      ensures Valid() && Order(i.status) >= 5
    {
      hide Queued;
      if Order(i.status) < 5 { i.status := DlStop; }
      i.code := 500;
      forall j | j in holders ensures ItemOk(j) { assert old(ItemOk(j)); }
    }

    /** The last user is gone for good. */
    method LetGo(i: Item)
      requires Valid() && i in holders && holders[i] > 0
      modifies `holders, `mapItems, i
      ensures Valid() && holders == old(holders)[i := old(holders[i]) - 1] && !i.owned && i.pathRel == old(i.pathRel)
      ensures Order(i.status) >= 5 && i.timeStarted == old(i.timeStarted)
      ensures mapItems == if old(i.owned) then old(mapItems) - {old(i.pathRel)} else old(mapItems)
    {
      hide Valid;
      if i.owned { Unreg(i); }
      Uncount(i);
      Stop(i);
    }

    /** The end of a holder. Only an item that is its path's own is taken from the map, and only
        by its last holder: for a displaced one, whose path is another's by now, nothing changes. */
    method Release(i: Item, cfg: Settings, now: int)
      requires Valid() && i in holders && holders[i] > 0
      modifies this, i
      ensures Valid() && loose == old(loose) && holders == old(holders)[i := old(holders[i]) - 1]
      ensures i.pathRel == old(i.pathRel) && i.timeStarted == old(i.timeStarted)
      ensures prolongedLifetimeQ != old(prolongedLifetimeQ) ==>
        var e := ExpDate(cfg, i.timeStarted, now); e > now && prolongedLifetimeQ == old(prolongedLifetimeQ) + [Entry(i, e)]
      ensures forall p :: p in mapItems ==> p in old(mapItems) && mapItems[p] == old(mapItems)[p]
      ensures !old(i.owned) ==> mapItems == old(mapItems) && !i.owned
      ensures old(i.owned) && old(i.usercount) > 1 ==> mapItems == old(mapItems) && i.owned && i.status == old(i.status)
      ensures old(i.owned) && old(i.usercount) == 1 ==>
        if prolongedLifetimeQ == old(prolongedLifetimeQ)
        then !i.owned && mapItems == old(mapItems) - {old(i.pathRel)} && Order(i.status) >= 5
        else i.owned && mapItems == old(mapItems)
    {
      hide Queued, Valid;
      if i.usercount > 1 {
        StillUsed(i);
        return;
      }
      if i.owned && !cfg.inShutdown && cfg.maxTempDelay != 0 && i.attr.volatile && i.status.Complete? {
        var expDate := ExpDate(cfg, i.timeStarted, now);
        if expDate > now {
          KeepForLater(i, expDate);
          return;
        }
      }
      LetGo(i);
    }

    method Regnew(path: string, attr: Attr) returns (i: Item)
      requires Valid() && path !in mapItems
      modifies `holders, `mapItems
      ensures Valid() && fresh(i) && holders == old(holders)[i := 1]
      ensures i.owned && i.pathRel == path && i.attr == attr && mapItems == old(mapItems)[path := i]
    {
      hide Valid;
      i := Apart(path, attr);
      Register(i);
    }

    /** An item that somebody has becomes its path's own. */
    method Register(i: Item)
      requires Valid() && i in holders && i !in loose && holders[i] > 0 && !i.owned && i.pathRel !in mapItems
      modifies `mapItems, i`owned, i`globRef
      ensures Valid() && i.owned && mapItems == old(mapItems)[i.pathRel := i]
    {
      hide Queued;
      assert ItemOk(i);
      mapItems := mapItems[i.pathRel := i];
      i.owned := true;
      i.globRef := Some(i.pathRel);
      forall j | j in holders ensures ItemOk(j) { assert old(ItemOk(j)); }
    }

    method Share(i: Item)
      requires Valid() && i in holders && i.owned
      modifies `holders, i`usercount
      ensures Valid() && holders == old(holders)[i := old(holders[i]) + 1]
    {
      hide Queued;
      assert ItemOk(i);
      i.usercount := i.usercount + 1;
      holders := holders[i := holders[i] + 1];
      forall j | j in holders ensures ItemOk(j) { assert old(ItemOk(j)); }
    }

    /** An item that is not registered, with one user. */
    method Apart(path: string, attr: Attr) returns (i: Item)
      requires Valid()
      modifies `holders
      ensures Valid() && fresh(i) && holders == old(holders)[i := 1] && !i.owned && i.pathRel == path && i.attr == attr && i !in loose
    {
      i := new Item(path, attr);
      assert i !in holders && Valid();
      hide Valid;
      Adopt(i);
    }

    /** The item that is there makes way: it keeps its users, but not its path. */
    method Displace(fi: Item, replPath: string)
      requires Valid() && fi in holders && fi.owned
      modifies `mapItems, fi`pathRel, fi`abandoned, fi`globRef, fi`owned
      ensures Valid() && mapItems == old(mapItems) - {old(fi.pathRel)}
      ensures !fi.owned && fi.abandoned && fi.pathRel == replPath
    {
      hide Queued;
      assert ItemOk(fi);
      mapItems := mapItems - {fi.pathRel};
      fi.pathRel := replPath;
      fi.abandoned := true;
      fi.globRef := None;
      fi.owned := false;
      forall j | j in holders ensures ItemOk(j) { assert old(ItemOk(j)); }
    }

    /** Whether a request without body goes to an item of its own, beside that of its path. */
    predicate SideTrack(fi: Item, how: Sharing, attr: Attr, cfg: Settings, now: int)
      reads fi
    {
      && !how.ForceMoveOutOfTheWay? && now <= fi.timeStarted + cfg.stuckSecs
      && (fi.attr.volatile == attr.volatile || fi.attr.volatile)
      && attr.headOnly && !fi.attr.headOnly
    }

    /** Whether the item that is there has to make way. */
    predicate MakeWay(fi: Item, how: Sharing, attr: Attr, cfg: Settings, now: int)
      reads fi
    {
      || how.ForceMoveOutOfTheWay?
      || now > fi.timeStarted + cfg.stuckSecs
      || (fi.attr.volatile != attr.volatile && !fi.attr.volatile)
      || (attr.headOnly != fi.attr.headOnly && fi.attr.headOnly)
      || attr.rangeLimit != fi.attr.rangeLimit
    }

    /** Whether Create tries to move the item out of the way. */
    predicate Moves(fi: Item, how: Sharing, attr: Attr, cfg: Settings, now: int)
      reads fi
    {
      !how.AlwaysTrySharing? && !fi.mustDisplace && !SideTrack(fi, how, attr, cfg, now) && MakeWay(fi, how, attr, cfg, now)
    }

    /** Create for a path. The result is the path's item, shared or new, or one apart that is not
        registered, or nothing if the old file cannot be moved out of the way; a new item for a
        path that had one means that the old one is displaced. */
    method Create(path: string, how: Sharing, attr: Attr, cfg: Settings, now: int,
                  link: FsResult, unlink: FsResult, replPath: string) returns (r: Item?)
      requires Valid()
      modifies this, holders.Keys
      ensures Valid() && loose == old(loose) && prolongedLifetimeQ == old(prolongedLifetimeQ)
      ensures r == null ==> holders == old(holders) && mapItems == old(mapItems)
      ensures r != null ==> r.pathRel == path && holders == old(holders)[r := (if r in old(holders) then old(holders)[r] else 0) + 1]
      ensures r != null && r.owned ==> mapItems == old(mapItems)[path := r]
      ensures r != null && !r.owned ==> fresh(r) && r.attr.noStore && mapItems == old(mapItems)
      ensures path in old(mapItems) && r != null && r.owned && r != old(mapItems)[path] ==>
        fresh(r) && var d := old(mapItems)[path]; !d.owned && d.abandoned && d.pathRel == replPath
      ensures path !in old(mapItems) ==> r != null && fresh(r) && r.owned
      ensures path in old(mapItems) && !old(Moves(mapItems[path], how, attr, cfg, now)) ==>
        r == old(mapItems)[path] || (r != null && !r.owned && old(SideTrack(mapItems[path], how, attr, cfg, now)))
      // whether the old name could be removed does not count, only whether it was found
      ensures path in old(mapItems) && old(Moves(mapItems[path], how, attr, cfg, now)) ==>
        && (r != null <==> path != "" && (link.NoEntry? || (link.Ok? && !unlink.NoEntry?)))
        && (r != null ==> fresh(r) && r.owned)
    {
      hide Valid, SideTrack, MakeWay, Queued, ItemOk;
      assert Known() by { ValidKnows(); }
      if path !in mapItems {
        r := Regnew(path, attr);
        return;
      }
      var fi := mapItems[path];
      assert mapItems[path := fi] == mapItems;
      if how.AlwaysTrySharing? || fi.mustDisplace {
        Share(fi);
        return fi;
      }
      if SideTrack(fi, how, attr, cfg, now) {
        r := Apart(path, attr.(noStore := true));
        return;
      }
      if !MakeWay(fi, how, attr, cfg, now) {
        Share(fi);
        return fi;
      }
      if fi.pathRel == "" { return null; }
      if (link.Ok? && !unlink.NoEntry?) || link.NoEntry? {
        Displace(fi, replPath);
        r := Regnew(path, attr);
        assert old(mapItems)[path := r] == (old(mapItems) - {path})[path := r];
        return;
      }
      return null;
    }

    ghost predicate Known()
      reads this, holders.Keys
    {
      forall p :: p in mapItems ==> mapItems[p] in holders && mapItems[p].owned && mapItems[p].pathRel == p
    }

    lemma ValidKnows()
      requires Valid()
      ensures Known()
    {
    }

    /** Create for an item made elsewhere: it is registered, unless its path is taken. Then it is
        refused if it was to be shared, and else handed out uncounted. */
    method CreateCustom(custom: Item, isShareable: bool) returns (r: Item?)
      requires Valid() && custom !in holders && !custom.owned && custom.globRef.None? && custom.usercount == 0
      modifies this, custom
      ensures Valid() && prolongedLifetimeQ == old(prolongedLifetimeQ) && custom.pathRel == old(custom.pathRel)
      ensures
        if custom.pathRel == "" || (custom.pathRel in old(mapItems) && isShareable)
        then r == null && holders == old(holders) && mapItems == old(mapItems) && loose == old(loose)
        else
          && r == custom && holders == old(holders)[custom := 1]
          && if custom.pathRel in old(mapItems) then !custom.owned && mapItems == old(mapItems) && loose == old(loose) + {custom}
             else custom.owned && mapItems == old(mapItems)[custom.pathRel := custom] && loose == old(loose)
    {
      hide Valid;
      if custom.pathRel == "" { return null; }
      if custom.pathRel in mapItems {
        if isShareable { return null; }
        AdoptLoose(custom);
      } else {
        Adopt(custom);
        Register(custom);
      }
      return custom;
    }

    /** A new item, with one user. */
    method Adopt(i: Item)
      requires Valid() && i !in holders && !i.owned && i.globRef.None? && i.usercount == 0
      modifies `holders, i`usercount
      ensures Valid() && holders == old(holders)[i := 1] && i !in loose
    {
      hide Queued;
      NotQueued(i);
      i.usercount := i.usercount + 1;
      holders := holders[i := 1];
      forall j | j in holders && j != i ensures ItemOk(j) { assert old(ItemOk(j)); }
      assert ItemOk(i);
    }

    /** A new item, with one user who is not counted. */
    method AdoptLoose(i: Item)
      requires Valid() && i !in holders && !i.owned && i.globRef.None?
      modifies `holders, `loose
      ensures Valid() && holders == old(holders)[i := 1] && loose == old(loose) + {i}
    {
      hide Queued;
      loose, holders := loose + {i}, holders[i := 1];
      forall j | j in holders && j != i ensures ItemOk(j) { assert old(ItemOk(j)); }
      assert ItemOk(i);
    }

    /** BackgroundCleanup: the entries before the first one that is not due are released, and no
        other holder is touched; the time it returns is that of this one. */
    method BackgroundCleanup(cfg: Settings, now: int) returns (due: Option<int>)
      requires Valid()
      modifies this, holders.Keys
      ensures Valid() && loose == old(loose)
      ensures var k := NotDue(old(prolongedLifetimeQ), now);
        && old(prolongedLifetimeQ)[k..] <= prolongedLifetimeQ
        && due == (if k == |old(prolongedLifetimeQ)| then None else Some(old(prolongedLifetimeQ)[k].expires))
        && (old(NoneInFuture(cfg, now)) ==> prolongedLifetimeQ == old(prolongedLifetimeQ)[k..])
      ensures holders == old(holders) && forall i :: i in holders ==> i.timeStarted == old(i.timeStarted)
      ensures forall p :: p in mapItems ==> p in old(mapItems) && mapItems[p] == old(mapItems)[p]
    {
      hide Valid, Queued, Owed;
      var n := FirstNotDue(prolongedLifetimeQ, now);
      due := if n == |prolongedLifetimeQ| then None else Some(prolongedLifetimeQ[n].expires);
      var released := prolongedLifetimeQ[..n];
      ghost var others := holders;
      Dequeue(n);
      assert old(NoneInFuture(cfg, now)) ==> NoneInFuture(cfg, now);
      ReleaseAll(released, others, cfg, now);
    }

    /** No item is kept when it is let go: none was started in the future. */
    ghost predicate NoneInFuture(cfg: Settings, now: int)
      reads this, holders.Keys
    {
      forall i :: i in holders ==> ExpDate(cfg, i.timeStarted, now) <= now
    }

    /** The destructors of the entries that were taken out of the queue. */
    method ReleaseAll(released: seq<Entry>, ghost others: map<Item, nat>, cfg: Settings, now: int)
      requires Valid() && Owed(others, released)
      modifies this, holders.Keys
      ensures Valid() && loose == old(loose) && holders == others && holders.Keys == old(holders.Keys)
      ensures old(prolongedLifetimeQ) <= prolongedLifetimeQ && (old(NoneInFuture(cfg, now)) ==> prolongedLifetimeQ == old(prolongedLifetimeQ))
      ensures forall i :: i in holders ==> i.timeStarted == old(i.timeStarted)
      ensures forall p :: p in mapItems ==> p in old(mapItems) && mapItems[p] == old(mapItems)[p]
    {
      hide Valid, Queued;
      var k := 0;
      while k < |released|
        invariant 0 <= k <= |released| && Valid() && loose == old(loose)
        invariant Owed(others, released[k..])
        invariant forall i :: i in holders ==> i.timeStarted == old(i.timeStarted)
        invariant old(prolongedLifetimeQ) <= prolongedLifetimeQ
        invariant old(NoneInFuture(cfg, now)) ==> prolongedLifetimeQ == old(prolongedLifetimeQ)
        invariant forall p :: p in mapItems ==> p in old(mapItems) && mapItems[p] == old(mapItems)[p]
      {
        var i := released[k].item;
        ghost var q := released[k..];
        assert q[1..] == released[k + 1..] && q[0].item == i && i in holders;
        QueuedFirst(q, i);
        ghost var were := holders;
        Release(i, cfg, now);
        OneIsPaid(others, were, q);
        k := k + 1;
      }
      assert released[k..] == [];
      NothingOwed(others);
    }

    /** These entries are holders on their own, beside the others, on the stack of the one who cleans up. */
    ghost predicate Owed(others: map<Item, nat>, q: seq<Entry>)
      reads this
    {
      && holders.Keys == others.Keys
      && (forall k :: 0 <= k < |q| ==> q[k].item in holders)
      && forall i :: i in holders ==> holders[i] == others[i] + Queued(q, i)
    }

    lemma OneIsPaid(others: map<Item, nat>, were: map<Item, nat>, q: seq<Entry>)
      requires q != [] && q[0].item in were && were.Keys == others.Keys && were[q[0].item] > 0
      requires forall k :: 0 <= k < |q| ==> q[k].item in were
      requires forall i :: i in were ==> were[i] == others[i] + Queued(q, i)
      requires holders == were[q[0].item := were[q[0].item] - 1]
      ensures Owed(others, q[1..])
    {
      hide Queued;
      forall j | j in holders ensures holders[j] == others[j] + Queued(q[1..], j) { QueuedFirst(q, j); }
      forall m | 0 <= m < |q[1..]| ensures q[1..][m].item in holders { assert q[1..][m] == q[m + 1]; }
    }

    lemma NothingOwed(others: map<Item, nat>)
      requires Owed(others, [])
      ensures holders == others
    {
      assert forall i :: i in holders ==> Queued([], i) == 0;
    }

    method Dequeue(n: nat)
      requires Valid() && n <= |prolongedLifetimeQ|
      modifies `prolongedLifetimeQ, `holders
      ensures Valid() && prolongedLifetimeQ == old(prolongedLifetimeQ)[n..] && holders.Keys == old(holders.Keys)
      ensures Owed(old(holders), old(prolongedLifetimeQ)[..n])
    {
      hide Queued;
      ghost var q := prolongedLifetimeQ;
      assert q == q[..n] + q[n..];
      prolongedLifetimeQ := prolongedLifetimeQ[n..];
      holders := map i | i in holders :: holders[i] + Queued(q[..n], i);
      forall j | j in holders ensures ItemOk(j) {
        assert old(ItemOk(j));
        QueuedSum(q[..n], q[n..], j);
      }
    }
  }

  lemma {:induction false} NotIn(q: seq<Entry>, i: Item)
    requires forall k :: 0 <= k < |q| ==> q[k].item != i
    ensures Queued(q, i) == 0
    decreases |q|
  {
    if q != [] { NotIn(q[..|q| - 1], i); }
  }

  method FirstNotDue(q: seq<Entry>, now: int) returns (n: nat)
    ensures n == NotDue(q, now)
  {
    n := 0;
    while n < |q| && q[n].expires <= now
      invariant 0 <= n <= |q| && n + NotDue(q[n..], now) == NotDue(q, now)
    {
      assert q[n..][1..] == q[n + 1..];
      n := n + 1;
    }
  }

  /** The first entry that is not due yet. */
  function NotDue(q: seq<Entry>, now: int): (k: nat)
    ensures k <= |q|
  {
    if q == [] || q[0].expires > now then 0 else 1 + NotDue(q[1..], now)
  }
}
