/** The address list a finished lookup hands out (the first half of ~tDnsResContext in
    src/caddrinfo.cc): no doubles, few enough, families taking turns. */
module Addresses {
  import opened Text

  datatype Family = V4 | V6 | OtherFamily

  datatype Addr = Addr(family: Family, bytes: string)

  /** One node of a resolver's answer; only TCP stream ones are used. */
  datatype Node = Node(addr: Addr, tcp: bool)

  const MAX_ADDR: nat := 10

  /** Which families are wanted, and which one goes first. */
  datatype Prefs = Prefs(take4: bool, take6: bool, first6: bool)

  function Dedup(nodes: seq<Node>, seen: seq<Addr>): seq<Addr>
    decreases |nodes|
  {
    if nodes == [] then seen
    else Dedup(nodes[1..], if nodes[0].tcp && nodes[0].addr !in seen then seen + [nodes[0].addr] else seen)
  }

  predicate Wanted(p: Prefs, a: Addr) { (p.take4 && a.family.V4?) || (p.take6 && a.family.V6?) }

  function OfFamily(addrs: seq<Addr>, f: Family): seq<Addr> {
    if addrs == [] then [] else if addrs[0].family == f then [addrs[0]] + OfFamily(addrs[1..], f) else OfFamily(addrs[1..], f)
  }

  /** The first so many wanted ones. */
  function FirstWanted(p: Prefs, addrs: seq<Addr>, room: nat): (r: seq<Addr>)
    ensures |r| <= room
  {
    if addrs == [] || room == 0 then []
    else if Wanted(p, addrs[0]) then [addrs[0]] + FirstWanted(p, addrs[1..], room - 1)
    else FirstWanted(p, addrs[1..], room)
  }

  /** The two queues take turns; an empty one is passed over. */
  function Alternate(sel6: bool, q4: seq<Addr>, q6: seq<Addr>): seq<Addr>
    decreases |q4| + |q6|, if sel6 then |q4| else |q6|
  {
    if sel6 && q6 != [] then [q6[0]] + Alternate(false, q4, q6[1..])
    else if !sel6 && q4 != [] then [q4[0]] + Alternate(true, q4[1..], q6)
    else if sel6 && q4 != [] then [q4[0]] + Alternate(true, q4[1..], q6)
    else if !sel6 && q6 != [] then [q6[0]] + Alternate(false, q4, q6[1..])
    else []
  }

  function Refined(p: Prefs, nodes: seq<Node>): seq<Addr> {
    var w := FirstWanted(p, Dedup(nodes, []), MAX_ADDR);
    Alternate(p.first6, OfFamily(w, V4), OfFamily(w, V6))
  }

  // ---------------------------------------------------------------- what the list is like

  predicate NoDoubles(addrs: seq<Addr>) { forall i, j :: 0 <= i < j < |addrs| ==> addrs[i] != addrs[j] }

  predicate AllOf(addrs: seq<Addr>, f: Family) { forall i :: 0 <= i < |addrs| ==> addrs[i].family == f }

  lemma {:induction false} DedupIs(nodes: seq<Node>, seen: seq<Addr>)
    requires NoDoubles(seen)
    ensures var r := Dedup(nodes, seen);
      && NoDoubles(r) && seen <= r
      && forall a :: a in r <==> a in seen || Node(a, true) in nodes
    decreases |nodes|
  {
    if nodes != [] {
      var isNew := nodes[0].tcp && nodes[0].addr !in seen;
      var next := if isNew then seen + [nodes[0].addr] else seen;
      if isNew { OneMore(seen, nodes[0].addr); }
      hide NoDoubles;
      DedupIs(nodes[1..], next);
      forall a ensures a in Dedup(nodes, seen) <==> a in seen || Node(a, true) in nodes {
        assert Node(a, true) in nodes <==> nodes[0] == Node(a, true) || Node(a, true) in nodes[1..];
        assert a in next <==> a in seen || (isNew && a == nodes[0].addr);
      }
    }
  }

  lemma OneMore(seen: seq<Addr>, a: Addr)
    requires NoDoubles(seen) && a !in seen
    ensures NoDoubles(seen + [a]) && seen <= seen + [a]
  {
  }

  lemma {:induction false} WantedIs(p: Prefs, addrs: seq<Addr>, room: nat)
    requires NoDoubles(addrs)
    ensures var r := FirstWanted(p, addrs, room);
      && NoDoubles(r) && (forall a :: a in r ==> a in addrs && Wanted(p, a))
      && (|r| < room ==> forall a :: a in addrs && Wanted(p, a) ==> a in r)
    decreases |addrs|
  {
    hide Wanted;
    if addrs != [] && room > 0 {
      assert addrs[0] !in addrs[1..];
      WantedIs(p, addrs[1..], if Wanted(p, addrs[0]) then room - 1 else room);
    }
  }

  lemma {:induction false} FamilyIs(addrs: seq<Addr>, f: Family)
    requires NoDoubles(addrs)
    ensures var r := OfFamily(addrs, f);
      NoDoubles(r) && AllOf(r, f) && (forall a :: a in r <==> a in addrs && a.family == f)
    decreases |addrs|
  {
    if addrs != [] {
      assert addrs[0] !in addrs[1..];
      FamilyIs(addrs[1..], f);
    }
  }

  /** Both queues are in the result, each in its order, and nothing else. */
  lemma {:induction false} AlternateKeeps(sel6: bool, q4: seq<Addr>, q6: seq<Addr>)
    requires AllOf(q4, V4) && AllOf(q6, V6)
    ensures var r := Alternate(sel6, q4, q6);
      && OfFamily(r, V4) == q4 && OfFamily(r, V6) == q6 && |r| == |q4| + |q6|
      && forall a :: a in r <==> a in q4 || a in q6
    decreases |q4| + |q6|
  {
    var r := Alternate(sel6, q4, q6);
    if q4 == [] && q6 == [] {
    } else if (sel6 && q6 != []) || q4 == [] {
      AlternateKeeps(false, q4, q6[1..]);
      assert r[1..] == Alternate(false, q4, q6[1..]);
      assert q6 == [q6[0]] + q6[1..];
    } else {
      AlternateKeeps(true, q4[1..], q6);
      assert r[1..] == Alternate(true, q4[1..], q6);
      assert q4 == [q4[0]] + q4[1..];
    }
  }

  /** They take turns as long as both last. */
  lemma {:induction false} TakeTurns(sel6: bool, q4: seq<Addr>, q6: seq<Addr>, i: nat)
    requires AllOf(q4, V4) && AllOf(q6, V6)
    requires i < 2 * |q4| && i < 2 * |q6|
    ensures |Alternate(sel6, q4, q6)| == |q4| + |q6|
    ensures Alternate(sel6, q4, q6)[i].family == if sel6 == (i % 2 == 0) then V6 else V4
    decreases i
  {
    AlternateKeeps(sel6, q4, q6);
    if i >= 2 {
      TakeTurns(sel6, q4[1..], q6[1..], i - 2);
      if sel6 {
        assert Alternate(sel6, q4, q6)[2..] == Alternate(sel6, q4[1..], q6[1..]);
      } else {
        assert Alternate(sel6, q4, q6)[2..] == Alternate(sel6, q4[1..], q6[1..]);
      }
    }
  }

  lemma {:induction false} NoDoublesByFamily(r: seq<Addr>)
    requires NoDoubles(OfFamily(r, V4)) && NoDoubles(OfFamily(r, V6)) && forall a :: a in r ==> a.family.V4? || a.family.V6?
    ensures NoDoubles(r)
    decreases |r|
  {
    if r != [] {
      var f := r[0].family;
      assert OfFamily(r, f)[1..] == OfFamily(r[1..], f);
      assert NoDoubles(OfFamily(r[1..], V4)) && NoDoubles(OfFamily(r[1..], V6));
      NoDoublesByFamily(r[1..]);
      InFamily(r[1..], r[0]);
      FirstOnce(OfFamily(r, f));
    }
  }

  lemma FirstOnce(s: seq<Addr>)
    requires NoDoubles(s) && s != []
    ensures s[0] !in s[1..]
  {
  }

  lemma {:induction false} InFamily(r: seq<Addr>, a: Addr)
    ensures a in r <==> a in OfFamily(r, a.family)
    decreases |r|
  {
    if r != [] { InFamily(r[1..], a); }
  }

  /** The list: at most ten TCP addresses the resolver gave, of the wanted families, none twice;
      all there are, if there are fewer; each family in the order it came in; the families taking
      turns, the preferred one first, as long as both last. */
  lemma RefinedList(p: Prefs, nodes: seq<Node>)
    ensures var r, d := Refined(p, nodes), Dedup(nodes, []);
      var w := FirstWanted(p, d, MAX_ADDR);
      && |r| <= MAX_ADDR && NoDoubles(r)
      && (forall a :: a in r ==> Node(a, true) in nodes && Wanted(p, a))
      && (|r| < MAX_ADDR ==> forall a :: Node(a, true) in nodes && Wanted(p, a) ==> a in r)
      && OfFamily(r, V4) == OfFamily(w, V4) && OfFamily(r, V6) == OfFamily(w, V6)
      && (forall i :: 0 <= i < |r| && i < 2 * |OfFamily(r, V4)| && i < 2 * |OfFamily(r, V6)| ==>
            r[i].family == if p.first6 == (i % 2 == 0) then V6 else V4)
  {
    hide Dedup, FirstWanted, Alternate;
    var d := Dedup(nodes, []);
    DedupIs(nodes, []);
    WantedIs(p, d, MAX_ADDR);
    var w := FirstWanted(p, d, MAX_ADDR);
    FamilyIs(w, V4);
    FamilyIs(w, V6);
    var q4, q6 := OfFamily(w, V4), OfFamily(w, V6);
    AlternateKeeps(p.first6, q4, q6);
    var r := Refined(p, nodes);
    NoDoublesByFamily(r);
    Sizes(p, w);
    forall i: nat | i < |r| && i < 2 * |q4| && i < 2 * |q6| ensures r[i].family == if p.first6 == (i % 2 == 0) then V6 else V4 {
      TakeTurns(p.first6, q4, q6, i);
    }
  }

  lemma {:induction false} Sizes(p: Prefs, w: seq<Addr>)
    requires forall a :: a in w ==> Wanted(p, a)
    ensures |OfFamily(w, V4)| + |OfFamily(w, V6)| == |w|
    decreases |w|
  {
    if w != [] {
      assert w[0] in w && w == [w[0]] + w[1..];
      Sizes(p, w[1..]);
    }
  }

  // ---------------------------------------------------------------- as the loops

  method Deduplicate(nodes: seq<Node>) returns (dedup: seq<Addr>)
    ensures dedup == Dedup(nodes, [])
  {
    dedup := [];
    var i := 0;
    while i < |nodes|
      invariant 0 <= i <= |nodes| && Dedup(nodes[i..], dedup) == Dedup(nodes, [])
    {
      assert nodes[i..][1..] == nodes[i + 1..];
      if nodes[i].tcp && nodes[i].addr !in dedup {
        dedup := dedup + [nodes[i].addr];
      }
      i := i + 1;
    }
  }

  lemma {:induction false} FamilyMore(addrs: seq<Addr>, a: Addr, f: Family)
    ensures OfFamily(addrs + [a], f) == if a.family == f then OfFamily(addrs, f) + [a] else OfFamily(addrs, f)
    decreases |addrs|
  {
    if addrs == [] {
      assert addrs + [a] == [a] && [a][1..] == [];
    } else {
      FamilyMore(addrs[1..], a, f);
      assert (addrs + [a])[1..] == addrs[1..] + [a];
    }
  }

  lemma {:induction false} FamilySum(addrs: seq<Addr>, bs: seq<Addr>, f: Family)
    ensures OfFamily(addrs + bs, f) == OfFamily(addrs, f) + OfFamily(bs, f)
    decreases |addrs|
  {
    if addrs == [] {
      assert addrs + bs == bs;
    } else {
      FamilySum(addrs[1..], bs, f);
      assert (addrs + bs)[1..] == addrs[1..] + bs;
    }
  }

  /** The loop that moves addresses to the queue of their family. */
  method Distribute(p: Prefs, all: seq<Addr>) returns (q4: seq<Addr>, q6: seq<Addr>)
    ensures var w := FirstWanted(p, all, MAX_ADDR); q4 == OfFamily(w, V4) && q6 == OfFamily(w, V6)
  {
    hide FirstWanted, OfFamily;
    q4, q6 := [], [];
    var dedup := all;
    while dedup != [] && |q4| + |q6| < MAX_ADDR
      invariant |q4| + |q6| <= MAX_ADDR
      invariant var w, rest := FirstWanted(p, all, MAX_ADDR), FirstWanted(p, dedup, MAX_ADDR - |q4| - |q6|);
        OfFamily(w, V4) == q4 + OfFamily(rest, V4) && OfFamily(w, V6) == q6 + OfFamily(rest, V6)
      decreases |dedup|
    {
      var front := dedup[0];
      ghost var room := MAX_ADDR - |q4| - |q6|;
      if p.take4 && front.family.V4? {
        Front(p, dedup, room, q4, q6);
        q4 := q4 + [front];
      } else if p.take6 && front.family.V6? {
        Front(p, dedup, room, q4, q6);
        q6 := q6 + [front];
      } else {
        Unwanted(p, dedup, room);
      }
      dedup := dedup[1..];
    }
    NoneLeft(p, dedup, MAX_ADDR - |q4| - |q6|, q4, q6);
  }

  lemma Unwanted(p: Prefs, dedup: seq<Addr>, room: nat)
    requires dedup != [] && room > 0 && !Wanted(p, dedup[0])
    ensures FirstWanted(p, dedup, room) == FirstWanted(p, dedup[1..], room)
  {
  }

  lemma NoneLeft(p: Prefs, dedup: seq<Addr>, room: nat, q4: seq<Addr>, q6: seq<Addr>)
    requires dedup == [] || room == 0
    ensures var rest := FirstWanted(p, dedup, room); q4 + OfFamily(rest, V4) == q4 && q6 + OfFamily(rest, V6) == q6
  {
  }

  lemma Front(p: Prefs, dedup: seq<Addr>, room: nat, q4: seq<Addr>, q6: seq<Addr>)
    requires dedup != [] && room > 0 && Wanted(p, dedup[0])
    ensures var rest, next, a := FirstWanted(p, dedup, room), FirstWanted(p, dedup[1..], room - 1), dedup[0];
      && q4 + OfFamily(rest, V4) == (if a.family.V4? then q4 + [a] else q4) + OfFamily(next, V4)
      && q6 + OfFamily(rest, V6) == (if a.family.V6? then q6 + [a] else q6) + OfFamily(next, V6)
  {
    var rest, next := FirstWanted(p, dedup, room), FirstWanted(p, dedup[1..], room - 1);
    assert rest[1..] == next;
    assert q4 + ([dedup[0]] + OfFamily(next, V4)) == q4 + [dedup[0]] + OfFamily(next, V4);
    assert q6 + ([dedup[0]] + OfFamily(next, V6)) == q6 + [dedup[0]] + OfFamily(next, V6);
  }

  /** The alternation loop: it may find the queue whose turn it is empty, but not twice. */
  method TakeInTurns(first6: bool, v4: seq<Addr>, v6: seq<Addr>) returns (infos: seq<Addr>)
    ensures infos == Alternate(first6, v4, v6)
  {
    infos := [];
    var sel6, q4, q6 := first6, v4, v6;
    while |q4| + |q6| > 0
      invariant infos + Alternate(sel6, q4, q6) == Alternate(first6, v4, v6)
      decreases |q4| + |q6|, if (sel6 && q6 == []) || (!sel6 && q4 == []) then 1 else 0
    {
      if sel6 && q6 != [] {
        assert infos + ([q6[0]] + Alternate(false, q4, q6[1..])) == infos + [q6[0]] + Alternate(false, q4, q6[1..]);
        infos, q6 := infos + [q6[0]], q6[1..];
      } else if !sel6 && q4 != [] {
        assert infos + ([q4[0]] + Alternate(true, q4[1..], q6)) == infos + [q4[0]] + Alternate(true, q4[1..], q6);
        infos, q4 := infos + [q4[0]], q4[1..];
      }
      sel6 := !sel6;
    }
    assert infos + [] == infos;
  }
}
