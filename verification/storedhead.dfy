/** The .head file of a cached item (StoreHeadToStorage and ParseHeadFromStorage in
    src/httpdate.cc). */
module StoredHead {
  import opened Text
  import opened Splitter

  /** Length (negative if unknown), date and origin (empty if unset). */
  datatype Head = Head(contLen: int, date: string, origin: string)

  const UNSET: Head := Head(-1, "", "")
  const FIRST_LINE: string := "HTTP/1.1 200 OK"
  const CONT_LEN: string := "Content-Length: "
  const LAST_MODIFIED: string := "Last-Modified: "
  const ORIG_SOURCE: string := "X-Original-Source: "
  /** Longer dates are normalised by the date parser. */
  const DATE_BUF: nat := 30

  function Lines(h: Head): seq<string> {
    [FIRST_LINE]
    + (if h.contLen >= 0 then [CONT_LEN + Dec(h.contLen)] else [])
    + (if h.date != "" then [LAST_MODIFIED + h.date] else [])
    + (if h.origin != "" then [ORIG_SOURCE + h.origin] else [])
  }

  /** StoreHeadToStorage: the text of the file. */
  function Store(h: Head): string {
    FIRST_LINE + CRLF
    + (if h.contLen >= 0 then CONT_LEN + Dec(h.contLen) + CRLF else "")
    + (if h.date != "" then LAST_MODIFIED + h.date + CRLF else "")
    + (if h.origin != "" then ORIG_SOURCE + h.origin + CRLF else "")
    + CRLF
  }

  /** What has been read so far: of each kind of line, only the first counts. */
  datatype Reading = Reading(head: Head, gotLen: bool, gotDate: bool, gotOrigin: bool)

  predicate StartsWith(s: string, p: string) { p <= s }

  function TakeLine(r: Reading, line: string, norm: string -> string): Reading {
    if !r.gotLen && StartsWith(line, "Content-Length:") then
      r.(head := r.head.(contLen := Atoll(CStr(line[15..]))), gotLen := true)
    else if !r.gotDate && StartsWith(line, LAST_MODIFIED) then
      var d := TrimBoth(line[|LAST_MODIFIED|..]);
      r.(head := r.head.(date := if |d| < DATE_BUF then d else norm(d)), gotDate := true)
    else if !r.gotOrigin && StartsWith(line, ORIG_SOURCE) then
      r.(head := r.head.(origin := TrimBoth(line[|ORIG_SOURCE|..])), gotOrigin := true)
    else r
  }

  function TakeLines(r: Reading, lines: seq<string>, norm: string -> string): Reading
    decreases |lines|
  {
    if lines == [] || lines[0] == "" then r else TakeLines(TakeLine(r, lines[0], norm), lines[1..], norm)
  }

  /** ParseHeadFromStorage; the file may be missing, and that is reported as success. */
  function Parse(file: Option<string>, initial: Head, norm: string -> string): (Head, bool) {
    if file.None? then (initial, true)
    else
      var lines := Split(file.value);
      if lines == [] || !StartsWith(lines[0], "HTTP/1.1 200") then (initial, false)
      else (TakeLines(Reading(initial, false, false, false), lines[1..], norm).head, true)
  }

  // ---------------------------------------------------------------- round trip

  lemma {:induction false} JoinLines(ts: seq<string>)
    ensures Join(ts + ["", ""]) == JoinAll(ts) + CRLF
    decreases |ts|
  {
    if ts == [] {
      assert ts + ["", ""] == ["", ""] && Join([""]) == "";
      assert ["", ""][1..] == [""];
    } else {
      JoinLines(ts[1..]);
      assert (ts + ["", ""])[1..] == ts[1..] + ["", ""] && (ts + ["", ""])[0] == ts[0];
      assert ts[0] + CRLF + (JoinAll(ts[1..]) + CRLF) == ts[0] + CRLF + JoinAll(ts[1..]) + CRLF;
    }
  }

  function JoinAll(ts: seq<string>): string { if ts == [] then "" else ts[0] + CRLF + JoinAll(ts[1..]) }

  lemma {:induction false} JoinAllSum(a: seq<string>, b: seq<string>)
    ensures JoinAll(a + b) == JoinAll(a) + JoinAll(b)
    decreases |a|
  {
    if a == [] {
      assert a + b == b;
    } else {
      JoinAllSum(a[1..], b);
      assert (a + b)[1..] == a[1..] + b;
      assert a[0] + CRLF + (JoinAll(a[1..]) + JoinAll(b)) == a[0] + CRLF + JoinAll(a[1..]) + JoinAll(b);
    }
  }

  lemma JoinOne(t: string)
    ensures JoinAll([t]) == t + CRLF && JoinAll([]) == ""
  {
    assert JoinAll([t][1..]) == "";
  }

  /** The text stored is these lines, an empty one, and nothing. */
  lemma StoreIsLines(h: Head)
    ensures Store(h) == Join(Lines(h) + ["", ""])
  {
    hide Dec, JoinAll, Join;
    var l1 := if h.contLen >= 0 then [CONT_LEN + Dec(h.contLen)] else [];
    var l2 := if h.date != "" then [LAST_MODIFIED + h.date] else [];
    var l3 := if h.origin != "" then [ORIG_SOURCE + h.origin] else [];
    JoinLines(Lines(h));
    JoinAllSum([FIRST_LINE] + l1 + l2, l3);
    JoinAllSum([FIRST_LINE] + l1, l2);
    JoinAllSum([FIRST_LINE], l1);
    JoinOne(FIRST_LINE);
    if h.contLen >= 0 { JoinOne(CONT_LEN + Dec(h.contLen)); }
    JoinOne(LAST_MODIFIED + h.date);
    JoinOne(ORIG_SOURCE + h.origin);
  }

  predicate Storable(h: Head) {
    h.contLen <= LLONG_MAX && FindCrlf(h.date).None? && FindCrlf(h.origin).None? && '\0' !in h.date && '\0' !in h.origin
    && |TrimBoth(h.date)| < DATE_BUF
  }

  /** No line end where there is none in either part and the first does not end in half of one. */
  lemma NoLineEnd(p: string, v: string)
    requires FindCrlf(v).None? && forall i :: 0 <= i < |p| ==> p[i] != '\r'
    ensures FindCrlf(p + v).None?
  {
    hide FindCrlf;
    forall i ensures !CrlfAt(p + v, i) {
      if |p| <= i { assert CrlfAt(p + v, i) == CrlfAt(v, i - |p|); }
    }
  }

  lemma NoLineEndInDec(n: nat)
    ensures FindCrlf(Dec(n)).None?
  {
    hide FindCrlf, Dec;
    assert forall i :: 0 <= i < |Dec(n)| ==> IsDigit(Dec(n)[i]);
    forall i ensures !CrlfAt(Dec(n), i) {}
  }

  lemma LinesAreLines(h: Head)
    requires Storable(h)
    ensures forall t :: t in Lines(h) + ["", ""] ==> FindCrlf(t).None?
  {
    hide FindCrlf, Dec, TrimBoth;
    NoLineEnd(LAST_MODIFIED, h.date);
    NoLineEnd(ORIG_SOURCE, h.origin);
    if h.contLen >= 0 {
      NoLineEndInDec(h.contLen);
      NoLineEnd(CONT_LEN, Dec(h.contLen));
    }
    NoLineEnd(FIRST_LINE, "") by { NoneInNothing(); }
    NoneInNothing();
    assert FIRST_LINE + "" == FIRST_LINE;
  }

  lemma NoneInNothing()
    ensures FindCrlf("").None?
  {
  }

  lemma LengthLine(n: nat)
    requires n <= LLONG_MAX
    ensures var line := CONT_LEN + Dec(n);
      StartsWith(line, "Content-Length:") && Atoll(CStr(line[15..])) == n
  {
    hide CStr, Dec;
    var line := CONT_LEN + Dec(n);
    assert line[15..] == " " + Dec(n);
    assert '\0' !in line[15..];
    CStrNone(line[15..]);
    DecRoundTrip(n, "");
    assert Dec(n) + "" == Dec(n);
    SpaceSkipped(Dec(n));
  }

  lemma SpaceSkipped(d: string)
    ensures Atoll(" " + d) == Atoll(d)
  {
    assert (" " + d)[1..] == d;
  }

  /** Reading what was stored gives the same length, and date and origin with the blanks around
      them trimmed; what was not stored stays unset. */
  lemma ReadsBack(h: Head, norm: string -> string)
    requires Storable(h)
    ensures Parse(Some(Store(h)), UNSET, norm) ==
      (Head(if h.contLen >= 0 then h.contLen else -1, TrimBoth(h.date), TrimBoth(h.origin)), true)
  {
    hide Store, Lines, TrimBoth, Dec, FindCrlf, Join, SplitOn, Atoll, CStr;
    StoreIsLines(h);
    LinesAreLines(h);
    SplitOfJoin(Lines(h) + ["", ""]);
    assert Store(h) != "" by { NotEmpty(h); }
    TakesAll(h, norm);
    assert (Lines(h) + ["", ""])[0] == FIRST_LINE && (Lines(h) + ["", ""])[1..] == Lines(h)[1..] + ["", ""] by { FirstOf(h); }
  }

  lemma NotEmpty(h: Head)
    ensures Store(h) != ""
  {
  }

  lemma FirstOf(h: Head)
    ensures Lines(h) != [] && Lines(h)[0] == FIRST_LINE
  {
  }

  lemma TakesAll(h: Head, norm: string -> string)
    requires Storable(h)
    ensures TakeLines(Reading(UNSET, false, false, false), Lines(h)[1..] + ["", ""], norm).head ==
      Head(if h.contLen >= 0 then h.contLen else -1, TrimBoth(h.date), TrimBoth(h.origin))
  {
    hide TrimBoth, Dec, FindCrlf, Atoll, CStr, TakeLines;
    assert TrimBoth("") == "" by { TrimNothing(); }
    var end := ["", ""];
    var l1 := if h.contLen >= 0 then [CONT_LEN + Dec(h.contLen)] else [];
    var l2 := if h.date != "" then [LAST_MODIFIED + h.date] else [];
    var l3 := if h.origin != "" then [ORIG_SOURCE + h.origin] else [];
    assert Lines(h)[1..] + end == l1 + (l2 + (l3 + end));
    var r0 := Reading(UNSET, false, false, false);
    var r1 := if h.contLen >= 0 then Reading(UNSET.(contLen := h.contLen), true, false, false) else r0;
    if h.contLen >= 0 {
      LengthLine(h.contLen);
      Next(r0, CONT_LEN + Dec(h.contLen), l2 + (l3 + end), norm);
    } else {
      assert l1 + (l2 + (l3 + end)) == l2 + (l3 + end);
    }
    assert TakeLines(r0, Lines(h)[1..] + end, norm) == TakeLines(r1, l2 + (l3 + end), norm);
    var r2 := if h.date != "" then r1.(head := r1.head.(date := TrimBoth(h.date)), gotDate := true) else r1;
    if h.date != "" {
      assert (LAST_MODIFIED + h.date)[|LAST_MODIFIED|..] == h.date && (LAST_MODIFIED + h.date)[0] == 'L';
      Next(r1, LAST_MODIFIED + h.date, l3 + end, norm);
    } else {
      assert l2 + (l3 + end) == l3 + end;
    }
    assert TakeLines(r1, l2 + (l3 + end), norm) == TakeLines(r2, l3 + end, norm);
    if h.origin != "" {
      assert (ORIG_SOURCE + h.origin)[|ORIG_SOURCE|..] == h.origin && (ORIG_SOURCE + h.origin)[0] == 'X';
      Next(r2, ORIG_SOURCE + h.origin, end, norm);
      Stops(r2.(head := r2.head.(origin := TrimBoth(h.origin)), gotOrigin := true), norm);
    } else {
      assert l3 + end == end;
      Stops(r2, norm);
    }
  }

  lemma TrimNothing()
    ensures TrimBoth("") == ""
  {
  }

  lemma Next(r: Reading, line: string, rest: seq<string>, norm: string -> string)
    requires line != ""
    ensures TakeLines(r, [line] + rest, norm) == TakeLines(TakeLine(r, line, norm), rest, norm)
  {
    hide TakeLine;
    assert ([line] + rest)[1..] == rest;
  }

  lemma Stops(r: Reading, norm: string -> string)
    ensures TakeLines(r, ["", ""], norm) == r
  {
  }

  /** The loop over the lines of the file. */
  method ParseHeadFromStorage(file: Option<string>, initial: Head, norm: string -> string) returns (h: Head, ok: bool)
    ensures (h, ok) == Parse(file, initial, norm)
  {
    hide TakeLine, LineOf, AfterLine, FindCrlf, CrlfAt;
    if file.None? { return initial, true; }
    var split := new StrictSplitter(file.value);
    var more := split.Next();
    if !more { return initial, false; }
    if !StartsWith(split.View(), "HTTP/1.1 200") { return initial, false; }
    var r := Reading(initial, false, false, false);
    ghost var goal := TakeLines(r, Split(file.value)[1..], norm);
    more := split.Next();
    while more
      invariant split.Valid() && (more ==> split.AtToken())
      invariant goal == TakeLines(r, if more then SplitOn(split.input) else [], norm)
      decreases more, |split.input|
    {
      ghost var here := SplitOn(split.input);
      if split.View() == "" { return r.head, true; }
      r := TakeLine(r, split.View(), norm);
      more := split.Next();
      assert here[1..] == if more then SplitOn(split.input) else [];
    }
    return r.head, true;
  }
}
