/** header::Load: an incremental parser for HTTP heads. It is called on whatever has arrived so
    far and answers 0 (need more), a negative code (broken) or the length of the whole head. */
module HeaderParser {
  import opened Text
  import opened Splitter

  datatype Kind = Invalid | Head | Get | Post | Connect | Answer

  datatype Field =
    | Connection | ContentLength | IfModifiedSince | Range | IfRange
    | ContentRange | LastModified | ProxyConnection | TransferEncoding | XOrig
    | Authorization | XForwardedFor | Location | ContentType | CacheControl

  const NAMES: seq<(Field, string)> :=
    [ (Connection, "connection"), (ContentLength, "content-length"),
      (IfModifiedSince, "if-modified-since"), (Range, "range"), (IfRange, "if-range"),
      (ContentRange, "content-range"), (LastModified, "last-modified"),
      (ProxyConnection, "proxy-connection"), (TransferEncoding, "transfer-encoding"),
      (XOrig, "x-original-source"), (Authorization, "authorization"),
      (XForwardedFor, "x-forwarded-for"), (Location, "location"),
      (ContentType, "content-type"), (CacheControl, "cache-control") ]

  datatype HeadData = HeadData(kind: Kind, proto: char, code: int, msg: string, fields: map<Field, string>)

  const EMPTY_HEAD := HeadData(Invalid, '1', 500, "", map[])

  // ---------------------------------------------------------------- names

  function Lower(c: char): char {
    if 'A' <= c <= 'Z' then (c as int + 32) as char else c
  }

  function LowerAll(s: string): (r: string)
    ensures |r| == |s| && forall i :: 0 <= i < |s| ==> r[i] == Lower(s[i])
  {
    if s == "" then "" else [Lower(s[0])] + LowerAll(s[1..])
  }

  function ResolveFrom(key: string, i: nat): Option<Field>
    requires i <= |NAMES|
    decreases |NAMES| - i
  {
    if i == |NAMES| then None
    else if LowerAll(key) == NAMES[i].1 then Some(NAMES[i].0)
    else ResolveFrom(key, i + 1)
  }

  function Resolve(key: string): Option<Field> { ResolveFrom(key, 0) }

  method ResolvePos(key: string) returns (r: Option<Field>)
    ensures r == Resolve(key)
  {
    for i := 0 to |NAMES|
      invariant Resolve(key) == ResolveFrom(key, i)
    {
      if LowerAll(key) == NAMES[i].1 { return Some(NAMES[i].0); }
    }
    return None;
  }

  // ---------------------------------------------------------------- status line

  function ToInt32(v: int): int { (v + 0x8000_0000) % 0x1_0000_0000 - 0x8000_0000 }

  /** svtol(tok, 0) cut to int: 0 also when the number is followed by a NUL. */
  function CodeOf(tok: string): int {
    var sign := if tok != "" && (tok[0] == '-' || tok[0] == '+') then 1 else 0;
    var end := sign + Digits(tok[sign..]);
    if end < |tok| && tok[end] == '\0' then 0 else ToInt32(Atoll(tok))
  }

  function FirstSpace(s: string): (n: nat)
    ensures n <= |s|
  {
    if s == "" || IsSpace(s[0]) then 0 else 1 + FirstSpace(s[1..])
  }

  /** tRemoteStatus(line, -1, false). */
  function StatusOf(line: string): (int, string) {
    var t := TrimFront(line);
    var n := FirstSpace(t);
    var msg := TrimBoth(t[n..]);
    if t == "" || CodeOf(t[..n]) == 0 || msg == "" then (-1, "Invalid header line") else (CodeOf(t[..n]), msg)
  }

  /** The head after its first line, and whether the parser goes on. */
  function FirstLine(h: HeadData, line: string): (bool, HeadData) {
    if h.kind.Answer? then
      var (code, msg) := StatusOf(line);
      (code >= 0, h.(code := code, msg := msg))
    else
      var it := TrimBoth(line);
      if |it| < 10 then (false, h)
      else
        var url := TrimBack(it[..|it| - 9]);
        var h1 := h.(proto := it[|it| - 1]);
        if url == "" then (false, h1) else (true, h1.(msg := url, code := -1))
  }

  // ---------------------------------------------------------------- field lines

  /** What one non-empty line does: it stops the parser at once, stops it only if more text
      follows (otherwise the line may still grow), or updates the head. */
  datatype LineEffect =
    | Fatal(ret: int)
    | FatalIfEnded(ret: int)
    | Update(head: HeadData, last: Option<Field>)

  function FieldLine(h: HeadData, last: Option<Field>, line: string): LineEffect {
    var sv := TrimBack(line);
    if sv != "" && IsSpace(sv[0]) then
      if last.None? then Fatal(-2)
      else
        var sofar := if last.value in h.fields then h.fields[last.value] else "";
        Update(h.(fields := h.fields[last.value := sofar + " " + TrimFront(sv)]), last)
    else
      var c := FindChar(sv, ':');
      if c.None? then FatalIfEnded(-4)
      else
        var key := TrimBack(sv[..c.value]);
        var value := TrimFront(sv[c.value + 1..]);
        if key == "" then FatalIfEnded(-5)
        else
          var f := Resolve(key);
          if f.None? then Update(h, None)
          else if value == "" then Update(h.(fields := h.fields - {f.value}), f)
          else Update(h.(fields := h.fields[f.value := value]), f)
  }

  /** Parses from the start of a line; `off` is the position of `rest` in the whole input. */
  function Lines(h: HeadData, last: Option<Field>, rest: string, off: nat): (int, HeadData)
    decreases |rest|
  {
    var line, after := LineOf(rest), AfterLine(rest);
    if line == "" then (if after.Some? then off + 2 else 0, h)
    else
      match FieldLine(h, last, line)
      case Fatal(ret) => (ret, h)
      case FatalIfEnded(ret) => (if after.Some? then ret else 0, h)
      case Update(h1, last1) =>
        if after.None? then (0, h1) else Lines(h1, last1, after.value, off + |line| + 2)
  }

  function Body(h: HeadData, rest: string, off: nat): (int, HeadData) {
    var (ok, h1) := FirstLine(h, LineOf(rest));
    var after := AfterLine(rest);
    if !ok || after.None? then (0, h1)
    else Lines(h1, None, after.value, off + |LineOf(rest)| + 2)
  }

  /** Tells the kind of head by its first bytes, with the number of bytes that takes. */
  function KindOf(input: string): (r: (Kind, nat))
    requires |input| >= 9
    ensures r.1 <= 8 && (r.0.Answer? ==> r.1 == 8)
  {
    if "HTTP/1." <= input then (Answer, 8)
    else if "GET " <= input then (Get, 4)
    else if "HEAD " <= input then (Head, 5)
    else if "POST " <= input then (Post, 5)
    else if "CONNECT " <= input then (Connect, 8)
    else (Invalid, 0)
  }

  /** header::Load: the return value and the head it leaves behind. */
  function Parse(h: HeadData, input: string): (int, HeadData) {
    if |input| < 9 then (0, h)
    else
      var (kind, off) := KindOf(input);
      if kind.Invalid? then (-1, h.(kind := kind))
      else Body(Started(h, kind, input[7]), input[off..], off)
  }

  function Started(h: HeadData, kind: Kind, proto: char): HeadData {
    if kind.Answer? then h.(kind := kind, proto := proto) else h.(kind := kind)
  }

  // ---------------------------------------------------------------- incremental parsing

  lemma {:induction false} TrimBackGrows(p: string, u: string)
    ensures TrimBack(p) <= TrimBack(p + u)
    decreases |u|
  {
    if u == "" {
      assert p + u == p;
    } else if IsSpace(u[|u| - 1]) {
      TrimBackGrows(p, u[..|u| - 1]);
      assert (p + u)[..|p + u| - 1] == p + u[..|u| - 1];
    }
  }

  /** A line that is whole stays the same line; a line still open can only grow, or turn out
      to have ended in front of its last carriage return. */
  lemma LineGrows(p: string, t: string)
    ensures AfterLine(p).Some? ==> LineOf(p + t) == LineOf(p) && AfterLine(p + t) == Some(AfterLine(p).value + t)
    ensures AfterLine(p).None? ==> LineOf(p) == p
    ensures AfterLine(p).None? ==>
      p <= LineOf(p + t) || (p != "" && p[|p| - 1] == '\r' && LineOf(p + t) == p[..|p| - 1])
  {
    hide FindCrlf;
    FindCrlfExtend(p, t);
    var k := FindCrlf(p);
    if k.Some? {
      assert (p + t)[..k.value] == p[..k.value];
      assert (p + t)[k.value + 2..] == p[k.value + 2..] + t;
    } else {
      var m := FindCrlf(p + t);
      if m.Some? && m.value < |p| {
        assert m.value == |p| - 1 && (p + t)[m.value] == p[m.value];
        assert (p + t)[..m.value] == p[..m.value];
      }
    }
  }

  lemma FatalGrows(h: HeadData, last: Option<Field>, p: string, t: string)
    requires AfterLine(p).None? && FieldLine(h, last, p).Fatal?
    ensures LineOf(p + t) != ""
    ensures FieldLine(h, last, LineOf(p + t)) == FieldLine(h, last, p)
  {
    LineGrows(p, t);
    hide AfterLine, LineOf, Resolve, FindChar, TrimFront;
    var line := LineOf(p + t);
    if p <= line {
      assert line == p + line[|p|..];
      TrimBackGrows(p, line[|p|..]);
    }
  }

  lemma {:induction false} LinesStable(h: HeadData, last: Option<Field>, p: string, t: string, off: nat)
    requires Lines(h, last, p, off).0 != 0
    ensures Lines(h, last, p + t, off) == Lines(h, last, p, off)
    decreases |p|
  {
    hide FieldLine, AfterLine, LineOf;
    LineGrows(p, t);
    if AfterLine(p).Some? {
      if LineOf(p) != "" && FieldLine(h, last, LineOf(p)).Update? {
        var e := FieldLine(h, last, LineOf(p));
        LinesStable(e.head, e.last, AfterLine(p).value, t, off + |LineOf(p)| + 2);
      }
    } else {
      FatalGrows(h, last, p, t);
    }
  }

  lemma BodyStable(h: HeadData, p: string, t: string, off: nat)
    requires Body(h, p, off).0 != 0
    ensures Body(h, p + t, off) == Body(h, p, off)
  {
    hide FirstLine, Lines, AfterLine, LineOf;
    LineGrows(p, t);
    var (_, h1) := FirstLine(h, LineOf(p));
    LinesStable(h1, None, AfterLine(p).value, t, off + |LineOf(p)| + 2);
  }

  lemma PrefixGrows(w: string, p: string, t: string)
    requires |w| <= |p|
    ensures w <= p + t <==> w <= p
  {
    assert (p + t)[..|w|] == p[..|w|];
  }

  lemma KindStable(p: string, t: string)
    requires |p| >= 9
    ensures KindOf(p + t) == KindOf(p)
  {
    PrefixGrows("HTTP/1.", p, t);
    PrefixGrows("GET ", p, t);
    PrefixGrows("HEAD ", p, t);
    PrefixGrows("POST ", p, t);
    PrefixGrows("CONNECT ", p, t);
  }

  lemma DropGrows(p: string, t: string, n: nat)
    requires n <= |p|
    ensures (p + t)[n..] == p[n..] + t
  {
  }

  /** A verdict, good or bad, is final: no amount of further input changes it. In particular a
      call on a partial head returns 0 or already the verdict on the whole. */
  lemma LoadStable(h: HeadData, p: string, t: string)
    requires Parse(h, p).0 != 0
    ensures Parse(h, p + t) == Parse(h, p)
  {
    KindStable(p, t);
    hide Body, KindOf, Started;
    var kind, off := KindOf(p).0, KindOf(p).1;
    if !kind.Invalid? {
      DropGrows(p, t, off);
      BodyStable(Started(h, kind, p[7]), p[off..], t, off);
    }
  }

  lemma {:induction false} LinesLength(h: HeadData, last: Option<Field>, rest: string, off: nat)
    ensures Lines(h, last, rest, off).0 <= off + |rest|
    decreases |rest|
  {
    FieldLineReturns(h, last, LineOf(rest));
    hide FieldLine, AfterLine, LineOf;
    var after := AfterLine(rest);
    if LineOf(rest) != "" && FieldLine(h, last, LineOf(rest)).Update? && after.Some? {
      var e := FieldLine(h, last, LineOf(rest));
      LinesLength(e.head, e.last, after.value, off + |LineOf(rest)| + 2);
    }
  }

  lemma FieldLineReturns(h: HeadData, last: Option<Field>, line: string)
    ensures FieldLine(h, last, line).Fatal? ==> FieldLine(h, last, line).ret == -2
    ensures FieldLine(h, last, line).FatalIfEnded? ==> FieldLine(h, last, line).ret < 0
  {
    hide Resolve, TrimBack, TrimFront, FindChar;
  }

  /** A reported length lies inside the input. */
  lemma LoadLength(h: HeadData, s: string)
    ensures Parse(h, s).0 <= |s|
  {
    hide KindOf, Started, Body;
    if |s| >= 9 {
      var (kind, off) := KindOf(s);
      BodyLength(Started(h, kind, s[7]), s[off..], off);
    }
  }

  lemma BodyLength(h: HeadData, rest: string, off: nat)
    ensures Body(h, rest, off).0 <= off + |rest|
  {
    hide FirstLine, Lines, LineOf, AfterLine;
    var (_, h1) := FirstLine(h, LineOf(rest));
    if AfterLine(rest).Some? {
      LinesLength(h1, None, AfterLine(rest).value, off + |LineOf(rest)| + 2);
    }
  }

  /** The contract of an incremental parser: on a head that is complete, every proper prefix
      asks for more, and anything may follow without changing length or contents. */
  lemma LoadIncremental(h: HeadData, head: string, k: nat, tail: string)
    requires Parse(h, head).0 == |head| > 0
    requires k < |head|
    ensures Parse(h, head[..k]).0 == 0
    ensures Parse(h, head + tail) == Parse(h, head)
  {
    hide Parse;
    LoadStable(h, head, tail);
    LoadLength(h, head[..k]);
    assert head[..k] + head[k..] == head;
    if Parse(h, head[..k]).0 != 0 {
      LoadStable(h, head[..k], head[k..]);
      assert false;
    }
  }

  // ---------------------------------------------------------------- the parser itself

  class Header {
    var kind: Kind
    var proto: char
    var code: int
    var msg: string
    var fields: map<Field, string>

    function Data(): HeadData
      reads this
    {
      HeadData(kind, proto, code, msg, fields)
    }

    constructor ()
      ensures Data() == EMPTY_HEAD
    {
      kind, proto, code, msg, fields := Invalid, '1', 500, "", map[];
    }

    /** The status or request line; false stops the parser with "need more". */
    method TakeFirstLine(line: string) returns (ok: bool)
      modifies this
      ensures (ok, Data()) == FirstLine(old(Data()), line)
    {
      if kind.Answer? {
        var st := StatusOf(line);
        code, msg := st.0, st.1;
        return code >= 0;
      }
      var it := TrimBoth(line);
      if |it| < 10 { return false; }
      proto := it[|it| - 1];
      var url := TrimBack(it[..|it| - 9]);
      if url == "" { return false; }
      msg, code := url, -1;
      return true;
    }

    /** One line below the first; a code other than 0 says what is wrong with it. */
    method TakeFieldLine(it: string, lastSetId: Option<Field>) returns (bad: int, last: Option<Field>)
      modifies this
      ensures match FieldLine(old(Data()), lastSetId, it)
        case Fatal(ret) => bad == ret == -2 && Data() == old(Data())
        case FatalIfEnded(ret) => bad == ret && ret != 0 && ret != -2 && Data() == old(Data())
        case Update(h, last1) => bad == 0 && Data() == h && last == last1
    {
      hide Resolve, TrimFront, FindChar;
      last := lastSetId;
      var sv := TrimBack(it);
      if sv != "" && IsSpace(sv[0]) { // a continuation
        if last.None? { return -2, last; }
        var sofar := if last.value in fields then fields[last.value] else "";
        fields := fields[last.value := sofar + " " + TrimFront(sv)];
        return 0, last;
      }
      var pos := FindChar(sv, ':');
      if pos.None? { return -4, last; }
      var key, value := TrimBack(sv[..pos.value]), TrimFront(sv[pos.value + 1..]);
      if key == "" { return -5, last; }
      last := ResolvePos(key);
      if last.Some? {
        fields := if value == "" then fields - {last.value} else fields[last.value := value];
      }
      return 0, last;
    }

    /** The loop over the lines of `rest`, which starts at position `off` of the input. */
    method LoadLines(rest: string, off: nat) returns (ret: int)
      requires rest != ""
      modifies this
      ensures (ret, Data()) == Body(old(Data()), rest, off)
    {
      hide LineOf, AfterLine, FieldLine, FirstLine, CrlfAt, FindCrlf, StrictSplitter.View;
      var split := new StrictSplitter(rest);
      var first, last := true, None;
      ghost var goal := Body(Data(), rest, off);
      var more := split.Next();
      while more
        invariant split.Valid() && fresh(split)
        invariant more ==> split.AtToken() && |split.input| <= |rest|
        invariant first ==> more && last.None? && split.input == rest && Data() == old(Data())
        invariant !first && more ==> goal == Lines(Data(), last, split.input, off + |rest| - |split.input|)
        invariant !more ==> goal == (0, Data())
        decreases more, |split.input|
      {
        var it := split.View();
        if first {
          first := false;
          var ok := TakeFirstLine(it);
          if !ok { return 0; }
          more := split.Next();
          continue;
        }
        if it == "" {
          more := split.Next();
          return if more then off + |rest| - |split.input| else 0;
        }
        ghost var here, at := split.input, off + |rest| - |split.input|;
        ghost var step := FieldLine(Data(), last, it);
        var bad;
        bad, last := TakeFieldLine(it, last);
        if bad == -2 { return bad; }
        more := split.Next();
        assert more ==> off + |rest| - |split.input| == at + |LineOf(here)| + 2;
        assert bad == 0 ==> step == Update(Data(), last);
        if bad != 0 { return if more then bad else 0; } // end of input or garbage?
      }
      return 0;
    }

    method Load(input: string) returns (ret: int)
      modifies this
      ensures (ret, Data()) == Parse(old(Data()), input)
    {
      hide KindOf, Body;
      if |input| < 9 { return 0; }
      var start := KindOf(input);
      kind := start.0;
      if kind.Invalid? { return -1; }
      if kind.Answer? { proto := input[7]; }
      ret := LoadLines(input[start.1..], start.1);
    }
  }

  // ---------------------------------------------------------------- what a head means

  /** A field as a server prints it, with nothing for the parser to trim away. */
  predicate Printable(f: (string, string)) {
    && f.0 != "" && !IsSpace(f.0[0]) && !IsSpace(f.0[|f.0| - 1])
    && (forall i :: 0 <= i < |f.0| ==> f.0[i] != ':')
    && f.1 != "" && !IsSpace(f.1[0]) && !IsSpace(f.1[|f.1| - 1])
    && FindCrlf(f.0 + ": " + f.1).None?
  }

  function PrintFields(fs: seq<(string, string)>): string {
    if fs == [] then CRLF else fs[0].0 + ": " + fs[0].1 + CRLF + PrintFields(fs[1..])
  }

  function PrintAnswer(proto: char, code: nat, msg: string, fs: seq<(string, string)>): string {
    "HTTP/1." + [proto] + " " + Dec(code) + " " + msg + CRLF + PrintFields(fs)
  }

  /** The last field of each known name wins; unknown names are passed over. */
  function Collect(fs: seq<(string, string)>, known: map<Field, string>): map<Field, string> {
    if fs == [] then known
    else
      var f := Resolve(fs[0].0);
      Collect(fs[1..], if f.None? then known else known[f.value := fs[0].1])
  }

  lemma PrintedLine(h: HeadData, last: Option<Field>, f: (string, string))
    requires Printable(f)
    ensures var r := Resolve(f.0);
      FieldLine(h, last, f.0 + ": " + f.1) ==
      Update(if r.None? then h else h.(fields := h.fields[r.value := f.1]), r)
  {
    hide Resolve;
    var line := f.0 + ": " + f.1;
    assert line[|line| - 1] == f.1[|f.1| - 1];
    assert TrimBack(line) == line;
    assert line[|f.0|] == ':';
    assert FindChar(line, ':') == Some(|f.0|) by { hide FindChar; }
    assert line[..|f.0|] == f.0;
    assert line[|f.0| + 1..] == " " + f.1;
    assert (" " + f.1)[1..] == f.1;
    assert TrimFront(" " + f.1) == TrimFront(f.1) == f.1;
  }

  lemma {:induction false} PrintedFields(h: HeadData, last: Option<Field>, fs: seq<(string, string)>, off: nat)
    requires forall f :: f in fs ==> Printable(f)
    ensures Lines(h, last, PrintFields(fs), off) == (off + |PrintFields(fs)|, h.(fields := Collect(fs, h.fields)))
    decreases |fs|
  {
    hide Resolve, FieldLine, LineOf, AfterLine, FindCrlf;
    if fs == [] {
      assert CRLF == "" + CRLF + "";
      LineOfFirst("", "");
    } else {
      assert fs[0] in fs;
      var line := fs[0].0 + ": " + fs[0].1;
      LineOfFirst(line, PrintFields(fs[1..]));
      PrintedLine(h, last, fs[0]);
      var e := FieldLine(h, last, line);
      PrintedFields(e.head, e.last, fs[1..], off + |line| + 2);
    }
  }

  lemma {:induction false} FirstSpaceAt(t: string, n: nat)
    requires n < |t| && IsSpace(t[n]) && forall i :: 0 <= i < n ==> !IsSpace(t[i])
    ensures FirstSpace(t) == n
  {
    if n > 0 { FirstSpaceAt(t[1..], n - 1); }
  }

  lemma CodeOfDec(code: nat)
    requires code < 0x8000_0000
    ensures CodeOf(Dec(code)) == code
  {
    var d := Dec(code);
    assert IsDigit(d[0]);
    assert Digits(d) == |d|;
    DecRoundTrip(code, "");
    assert d + "" == d && d[0..] == d;
  }

  predicate PrintableMsg(msg: string) {
    msg != "" && !IsSpace(msg[0]) && !IsSpace(msg[|msg| - 1]) && FindCrlf(msg).None?
  }

  lemma PrintedStatus(code: nat, msg: string)
    requires 0 < code < 0x8000_0000 && PrintableMsg(msg)
    ensures StatusOf(" " + Dec(code) + " " + msg) == (code, msg)
    ensures FindCrlf(" " + Dec(code) + " " + msg).None?
  {
    var d := Dec(code);
    var line, t := " " + d + " " + msg, d + " " + msg;
    assert line[1..] == t;
    assert IsDigit(d[0]);
    assert TrimFront(line) == t;
    assert forall i :: 0 <= i < |d| ==> t[i] == d[i];
    FirstSpaceAt(t, |d|);
    assert t[..|d|] == d && t[|d|..] == " " + msg;
    assert (" " + msg)[1..] == msg;
    assert (" " + msg)[|msg|] == msg[|msg| - 1];
    assert TrimBack(" " + msg) == " " + msg;
    assert TrimFront(" " + msg) == TrimFront(msg) == msg;
    CodeOfDec(code);
    hide FindCrlf;
    assert forall j :: 0 <= j < |d| + 2 ==> line[j] == ' ' || IsDigit(line[j]);
    forall i ensures !CrlfAt(line, i) {
      if |d| + 2 <= i { assert CrlfAt(line, i) == CrlfAt(msg, i - |d| - 2); }
    }
  }

  lemma BodyOfPrinted(h: HeadData, code: nat, msg: string, fs: seq<(string, string)>)
    requires h.kind.Answer? && 0 < code < 0x8000_0000 && PrintableMsg(msg)
    requires forall f :: f in fs ==> Printable(f)
    ensures var rest := " " + Dec(code) + " " + msg + CRLF + PrintFields(fs);
      Body(h, rest, 8) == (8 + |rest|, h.(code := code, msg := msg, fields := Collect(fs, h.fields)))
  {
    hide Dec, StatusOf, PrintFields, Lines, Collect, LineOf, AfterLine, Printable, FindCrlf;
    var line := " " + Dec(code) + " " + msg;
    PrintedStatus(code, msg);
    LineOfFirst(line, PrintFields(fs));
    PrintedFields(h.(code := code, msg := msg), None, fs, 8 + |line| + 2);
  }

  lemma DropAnswer(proto: char, w: string)
    requires |w| >= 1
    ensures var s := "HTTP/1." + [proto] + w;
      KindOf(s) == (Answer, 8) && s[8..] == w && s[7] == proto
  {
    assert ("HTTP/1." + [proto] + w)[..7] == "HTTP/1.";
  }

  /** The parser reads back exactly what a server printed: status, message and the last value
      of every known field, and the whole text is the head. */
  lemma ParseOfPrinted(h: HeadData, proto: char, code: nat, msg: string, fs: seq<(string, string)>)
    requires 0 < code < 0x8000_0000 && PrintableMsg(msg)
    requires forall f :: f in fs ==> Printable(f)
    ensures var s := PrintAnswer(proto, code, msg, fs);
      Parse(h, s) == (|s|, HeadData(Answer, proto, code, msg, Collect(fs, h.fields)))
  {
    hide Dec, PrintFields, Collect, Printable, KindOf, Body, PrintableMsg;
    var rest := " " + Dec(code) + " " + msg + CRLF + PrintFields(fs);
    assert PrintAnswer(proto, code, msg, fs) == "HTTP/1." + [proto] + rest;
    DropAnswer(proto, rest);
    BodyOfPrinted(Started(h, Answer, proto), code, msg, fs);
  }
}
