/** Search for the longest acceptable prefix of a path (fish_longest_match in src/astrop.cc), by
    bisection over its components. */
module Fish {
  /** The length without separators at the end. */
  function Trimmed(s: string, sep: char): (t: nat)
    ensures t <= |s| && (t > 0 ==> s[t - 1] != sep) && forall i :: t <= i < |s| ==> s[i] == sep
  {
    if s == "" then 0
    else if s[|s| - 1] == sep then Trimmed(s[..|s| - 1], sep)
    else |s|
  }

  /** A prefix of this length ends with a component. */
  predicate ComponentEnd(s: string, sep: char, e: nat) {
    var t := Trimmed(s, sep);
    0 < e <= t && (e == t || s[e] == sep)
  }

  predicate NoDoubled(s: string, sep: char) {
    forall i :: 0 <= i && i + 1 < Trimmed(s, sep) ==> !(s[i] == sep && s[i + 1] == sep)
  }

  /** With a component prefix, all shorter ones are acceptable. */
  ghost predicate Closed(s: string, sep: char, accept: string -> bool) {
    forall d: nat, e: nat :: ComponentEnd(s, sep, d) && ComponentEnd(s, sep, e) && d <= e && accept(s[..e]) ==> accept(s[..d])
  }

  /** The first separator from `m` on, or `r`. */
  function ForwardTo(s: string, sep: char, m: nat, r: nat): (k: nat)
    requires m <= r <= |s|
    ensures m <= k <= r && (k < r ==> s[k] == sep) && forall i :: m <= i < k ==> s[i] != sep
    decreases r - m
  {
    if m == r || s[m] == sep then m else ForwardTo(s, sep, m + 1, r)
  }

  /** The last separator up to `m`, or `l`. */
  function BackTo(s: string, sep: char, m: nat, l: nat): (k: nat)
    requires l <= m < |s|
    ensures l <= k <= m && (k > l ==> s[k] == sep) && forall i :: k < i <= m ==> s[i] != sep
  {
    if m > l && s[m] != sep then BackTo(s, sep, m - 1, l) else m
  }

  /** One round of the search between `l` and `r`: the prefix it probes, and the bounds then. */
  function Probe(s: string, sep: char, l: nat, r: nat): nat
    requires l < r <= |s|
  {
    ForwardTo(s, sep, (l + r) / 2, r)
  }

  function Round(s: string, sep: char, l: nat, r: nat, accept: string -> bool): (nat, nat)
    requires l < r <= |s|
  {
    var p := Probe(s, sep, l, r);
    if accept(s[..p]) then (p, r) else (l, BackTo(s, sep, (l + r) / 2, l))
  }

  /** A round gets nowhere exactly if it probes again the prefix it already has, before a separator
      that is followed by another one or by the upper bound. */
  lemma StuckIff(s: string, sep: char, l: nat, r: nat, accept: string -> bool)
    requires l < r <= |s|
    ensures Round(s, sep, l, r, accept) == (l, r) <==> r == l + 1 && s[l] == sep && accept(s[..l])
    ensures Round(s, sep, l, r, accept) != (l, r) ==> var (a, b) := Round(s, sep, l, r, accept); l <= a <= b <= r && b - a < r - l
  {
  }

  /** So with a doubled separator the search may go on for ever: "a//b" where only "a" will do. */
  lemma DoubledSeparatorLoops()
    ensures var onlyA: string -> bool := p => p == "a";
      Round("a//b", '/', 0, 4, onlyA) == (0, 2) && Round("a//b", '/', 0, 2, onlyA) == (1, 2)
      && Round("a//b", '/', 1, 2, onlyA) == (1, 2)
  {
    assert "a//b"[..1] == "a";
    assert |"a//b"[..2]| == 2;
  }

  /** What holds between rounds: the lower bound is accepted, or zero; nothing above the upper
      bound is. */
  ghost predicate Bounds(s: string, sep: char, l: nat, r: nat, accept: string -> bool) {
    && l <= r <= Trimmed(s, sep)
    && (l == 0 || (ComponentEnd(s, sep, l) && accept(s[..l])))
    && (l < r ==> ComponentEnd(s, sep, r))
    && forall e: nat :: ComponentEnd(s, sep, e) && e > r ==> !accept(s[..e])
  }

  lemma ProbeIs(s: string, sep: char, l: nat, r: nat, accept: string -> bool)
    requires NoDoubled(s, sep) && Bounds(s, sep, l, r, accept) && l < r
    ensures var p := Probe(s, sep, l, r); l < p <= r && ComponentEnd(s, sep, p)
  {
    hide Closed;
    assert r == Trimmed(s, sep) || s[r] == sep;
    assert r == l + 1 ==> s[l] != sep;
  }

  lemma RoundKeeps(s: string, sep: char, l: nat, r: nat, accept: string -> bool)
    requires NoDoubled(s, sep) && Closed(s, sep, accept) && Bounds(s, sep, l, r, accept) && l < r
    ensures var (a, b) := Round(s, sep, l, r, accept); Bounds(s, sep, a, b, accept)
  {
    hide NoDoubled;
    ProbeIs(s, sep, l, r, accept);
    var p := Probe(s, sep, l, r);
    if !accept(s[..p]) {
      var b := BackTo(s, sep, (l + r) / 2, l);
      forall e: nat | ComponentEnd(s, sep, e) && e > b ensures !accept(s[..e]) {
        if e < p { Between(s, sep, l, r, e); }
      }
    }
  }

  /** No component ends between the separators around the middle. */
  lemma Between(s: string, sep: char, l: nat, r: nat, e: nat)
    requires l < r <= Trimmed(s, sep) && BackTo(s, sep, (l + r) / 2, l) < e < Probe(s, sep, l, r)
    ensures !ComponentEnd(s, sep, e)
  {
  }

  method Forward(s: string, sep: char, start: nat, r: nat) returns (m: nat)
    requires start <= r <= |s|
    ensures m == ForwardTo(s, sep, start, r)
  {
    m := start;
    while m != r && s[m] != sep
      invariant start <= m <= r && ForwardTo(s, sep, m, r) == ForwardTo(s, sep, start, r)
    {
      m := m + 1;
    }
  }

  method Backward(s: string, sep: char, start: nat, l: nat) returns (m: nat)
    requires l <= start < |s|
    ensures m == BackTo(s, sep, start, l)
  {
    m := start;
    while m > l && s[m] != sep
      invariant l <= m <= start && BackTo(s, sep, m, l) == BackTo(s, sep, start, l)
    {
      m := m - 1;
    }
  }

  /** Without doubled separators the search ends, and the longest prefix it has seen accepted is
      the longest component prefix that is acceptable; it probes nothing but such prefixes. */
  method FishLongestMatch(s: string, sep: char, accept: string -> bool) returns (probes: seq<nat>)
    requires NoDoubled(s, sep) && Closed(s, sep, accept)
    ensures s == "" ==> probes == [0]
    ensures s != "" ==> forall p :: p in probes ==> ComponentEnd(s, sep, p)
    ensures forall e: nat :: ComponentEnd(s, sep, e) && accept(s[..e]) ==> exists p :: p in probes && e <= p && accept(s[..p])
  {
    if s == "" { return [0]; }
    hide NoDoubled, Closed, ComponentEnd, ForwardTo, BackTo;
    var l, r := 0, Trimmed(s, sep);
    probes := [];
    assert Bounds(s, sep, l, r, accept) by { StartBounds(s, sep, accept); }
    while l < r
      invariant Bounds(s, sep, l, r, accept) && (l == 0 || l in probes)
      invariant forall p :: p in probes ==> ComponentEnd(s, sep, p)
      decreases r - l
    {
      ProbeIs(s, sep, l, r, accept);
      RoundKeeps(s, sep, l, r, accept);
      var mid := (l + r) / 2;
      var m := Forward(s, sep, mid, r);
      probes := probes + [m];
      if accept(s[..m]) {
        l := m;
      } else {
        r := Backward(s, sep, mid, l);
      }
    }
    forall e: nat | ComponentEnd(s, sep, e) && accept(s[..e]) ensures exists p :: p in probes && e <= p && accept(s[..p]) {
      assert e <= l;
      assert e > 0 by { PositiveEnd(s, sep, e); }
      assert l in probes && e <= l && accept(s[..l]);
    }
  }

  lemma PositiveEnd(s: string, sep: char, e: nat)
    requires ComponentEnd(s, sep, e)
    ensures e > 0
  {
  }

  lemma StartBounds(s: string, sep: char, accept: string -> bool)
    ensures Bounds(s, sep, 0, Trimmed(s, sep), accept)
  {
  }
}
