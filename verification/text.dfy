/** Strings as the C++ sources see them: string_view searches, C string searches that stop at
    a NUL character, whitespace trimming, and the number formats of printf and scanf. */
module Text {

  datatype Option<+T> = None | Some(value: T)

  const CRLF := "\r\n"

  function Concat(pieces: seq<string>): string {
    if pieces == [] then "" else pieces[0] + Concat(pieces[1..])
  }

  // ---------------------------------------------------------------- searching

  predicate CrlfAt(s: string, i: int) {
    0 <= i < i + 1 < |s| && s[i] == '\r' && s[i + 1] == '\n'
  }

  /** string_view::find("\r\n"): the first position of the line end, or None for npos. */
  function FindCrlf(s: string): (r: Option<nat>)
    ensures r.Some? ==> CrlfAt(s, r.value) && forall i :: 0 <= i < r.value ==> !CrlfAt(s, i)
    ensures r.None? ==> forall i :: !CrlfAt(s, i)
  {
    if |s| < 2 then None
    else if CrlfAt(s, 0) then Some(0)
    else
      var r := FindCrlf(s[1..]);
      assert forall i :: 0 < i ==> CrlfAt(s, i) == CrlfAt(s[1..], i - 1);
      if r.None? then None else Some(r.value + 1)
  }

  /** Appending text never moves a line end, and can only add one that touches the new text. */
  lemma FindCrlfExtend(p: string, t: string)
    ensures FindCrlf(p).Some? ==> FindCrlf(p + t) == FindCrlf(p)
    ensures FindCrlf(p).None? && FindCrlf(p + t).Some? ==> |p| < FindCrlf(p + t).value + 2
  {
    assert forall i :: i + 2 <= |p| ==> CrlfAt(p + t, i) == CrlfAt(p, i);
    if FindCrlf(p).Some? {
      assert CrlfAt(p + t, FindCrlf(p).value);
    }
  }

  /** A line that holds no line end is found whole in front of its terminator, even when it
      ends in a lone carriage return. */
  lemma FindLineEnd(line: string, rest: string)
    requires FindCrlf(line).None?
    ensures FindCrlf(line + CRLF + rest) == Some(|line|)
  {
    var s := line + CRLF + rest;
    assert CrlfAt(s, |line|);
    forall i | 0 <= i < |line| ensures !CrlfAt(s, i) {
      assert !CrlfAt(line, i);
    }
  }

  /** string_view::find of one character. */
  function FindChar(s: string, c: char): (r: Option<nat>)
    ensures r.Some? ==> r.value < |s| && s[r.value] == c && forall i :: 0 <= i < r.value ==> s[i] != c
    ensures r.None? ==> forall i :: 0 <= i < |s| ==> s[i] != c
  {
    if s == "" then None
    else if s[0] == c then Some(0)
    else
      var r := FindChar(s[1..], c);
      assert forall i :: 0 < i < |s| ==> s[i] == s[1..][i - 1];
      if r.None? then None else Some(r.value + 1)
  }

  /** What strstr and strchr see of a buffer: everything before the first NUL. */
  function CStr(s: string): string {
    var k := FindChar(s, '\0');
    if k.None? then s else s[..k.value]
  }

  lemma CStrExtend(p: string, t: string)
    ensures |CStr(p)| < |p| ==> CStr(p + t) == CStr(p)
    ensures |CStr(p)| == |p| ==> CStr(p) == p && CStr(p + t) == p + CStr(t)
  {
    hide FindChar;
    var k, m, n := FindChar(p, '\0'), FindChar(t, '\0'), FindChar(p + t, '\0');
    assert forall i :: 0 <= i < |p| ==> (p + t)[i] == p[i];
    assert forall i :: 0 <= i < |t| ==> (p + t)[|p| + i] == t[i];
    if k.Some? {
      assert (p + t)[k.value] == '\0' && n == k;
    } else if m.Some? {
      assert (p + t)[|p| + m.value] == '\0';
      assert n == Some(|p| + m.value);
    } else {
      assert forall i :: 0 <= i < |p + t| ==> (p + t)[i] == if i < |p| then p[i] else t[i - |p|];
    }
  }

  /** strstr(s, "\r\n"). */
  function StrStrCrlf(s: string): Option<nat> {
    FindCrlf(CStr(s))
  }

  lemma StrStrExtend(p: string, t: string)
    ensures StrStrCrlf(p).Some? ==> StrStrCrlf(p + t) == StrStrCrlf(p)
  {
    CStrExtend(p, t);
    FindCrlfExtend(CStr(p), CStr(t));
    if |CStr(p)| == |p| { assert CStr(p) == p; }
  }

  // ---------------------------------------------------------------- trimming

  /** The members of SPACECHARS; also what isspace accepts. */
  predicate IsSpace(c: char) {
    c == ' ' || c == '\n' || c == '\r' || c == '\t' || c == 11 as char || c == 12 as char
  }

  function TrimFront(s: string): (r: string)
    ensures |r| <= |s|
    ensures r != "" ==> !IsSpace(r[0])
  {
    if s != "" && IsSpace(s[0]) then TrimFront(s[1..]) else s
  }

  predicate Blank(s: string) { TrimFront(s) == "" }

  function TrimBack(s: string): (r: string)
    ensures r <= s
    ensures r != "" ==> !IsSpace(r[|r| - 1])
  {
    if s != "" && IsSpace(s[|s| - 1]) then TrimBack(s[..|s| - 1]) else s
  }

  function TrimBoth(s: string): string { TrimFront(TrimBack(s)) }

  // ---------------------------------------------------------------- numbers

  predicate IsDigit(c: char) { '0' <= c <= '9' }

  function DigitValue(c: char): (v: nat)
    requires IsDigit(c)
    ensures v < 10
  {
    c as int - '0' as int
  }

  predicate IsHexDigit(c: char) { '0' <= c <= '9' || 'a' <= c <= 'f' || 'A' <= c <= 'F' }

  function HexValue(c: char): (v: nat)
    requires IsHexDigit(c)
    ensures v < 16
  {
    if '0' <= c <= '9' then c as int - '0' as int
    else if 'a' <= c <= 'f' then c as int - 'a' as int + 10
    else c as int - 'A' as int + 10
  }

  /** Value of the run of digits `s` starts with, continuing from `acc`. */
  function DecRun(s: string, acc: nat): nat {
    if s != "" && IsDigit(s[0]) then DecRun(s[1..], acc * 10 + DigitValue(s[0])) else acc
  }

  function HexRun(s: string, acc: nat): nat {
    if s != "" && IsHexDigit(s[0]) then HexRun(s[1..], acc * 16 + HexValue(s[0])) else acc
  }

  const LLONG_MAX: int := 0x7fff_ffff_ffff_ffff
  const ULONG_MAX: int := 0xffff_ffff_ffff_ffff

  /** strtoll / atoll: blanks, a sign, digits; saturating. */
  function Atoll(s: string): int {
    var t := TrimFront(s);
    var neg := t != "" && t[0] == '-';
    var u := if t != "" && (t[0] == '-' || t[0] == '+') then t[1..] else t;
    var v: int := DecRun(u, 0);
    if neg then (if v > LLONG_MAX + 1 then -LLONG_MAX - 1 else -v)
    else (if v > LLONG_MAX then LLONG_MAX else v)
  }

  /** sscanf(s, "%x", &unsigned): None when nothing converts. The conversion goes through
      strtoul (saturating at ULONG_MAX) and is cut to 32 bits by the assignment. */
  function ScanHex(s: string): Option<nat> {
    ScanHexSigned(TrimFront(CStr(s)))
  }

  function ScanHexSigned(t: string): Option<nat> {
    if t != "" && (t[0] == '-' || t[0] == '+') then ScanHexDigits(t[1..], t[0] == '-')
    else ScanHexDigits(t, false)
  }

  function ScanHexDigits(t: string, neg: bool): Option<nat> {
    if |t| >= 2 && t[0] == '0' && (t[1] == 'x' || t[1] == 'X') then Some(ToUnsigned(HexRun(t[2..], 0), neg))
    else if t != "" && IsHexDigit(t[0]) then Some(ToUnsigned(HexRun(t, 0), neg))
    else None
  }

  function ToUnsigned(v: nat, neg: bool): nat {
    (if v > ULONG_MAX then ULONG_MAX else if neg && v > 0 then ULONG_MAX + 1 - v else v) % 0x1_0000_0000
  }

  lemma {:induction false} HexRunStops(u: string, v: string, w: string, acc: nat)
    requires v != "" && !IsHexDigit(v[0])
    ensures HexRun(u + v + w, acc) == HexRun(u + v, acc)
  {
    if u == "" {
      assert u + v + w == v + w && u + v == v;
    } else {
      assert (u + v + w)[1..] == u[1..] + v + w && (u + v)[1..] == u[1..] + v;
      if IsHexDigit(u[0]) { HexRunStops(u[1..], v, w, acc * 16 + HexValue(u[0])); }
    }
  }

  lemma ScanDigitsStops(u: string, v: string, w: string, neg: bool)
    requires v != "" && v[0] == '\r'
    ensures ScanHexDigits(u + v + w, neg) == ScanHexDigits(u + v, neg)
  {
    HexRunStops(u, v, w, 0);
    if |u| >= 2 {
      HexRunStops(u[2..], v, w, 0);
      assert (u + v + w)[2..] == u[2..] + v + w && (u + v)[2..] == u[2..] + v;
    }
  }

  lemma {:induction false} TrimFrontExtend(u: string, w: string)
    requires !Blank(u)
    ensures TrimFront(u + w) == TrimFront(u) + w
  {
    if IsSpace(u[0]) {
      TrimFrontExtend(u[1..], w);
      assert (u + w)[1..] == u[1..] + w;
    }
  }

  lemma ScanSignedStops(t: string, w: string)
    requires t != ""
    ensures ScanHexSigned(t + CRLF + w) == ScanHexSigned(t + CRLF)
  {
    ScanDigitsStops(t, CRLF, w, false);
    ScanDigitsStops(t[1..], CRLF, w, t[0] == '-');
    assert (t + CRLF + w)[1..] == t[1..] + CRLF + w && (t + CRLF)[1..] == t[1..] + CRLF;
  }

  /** A size line that holds anything but blanks is scanned alike whatever follows its CRLF. */
  lemma ScanHexLocal(line: string, w: string)
    requires '\0' !in line && !Blank(line)
    ensures ScanHex(line + CRLF + w) == ScanHex(line + CRLF)
  {
    assert '\0' !in line + CRLF;
    CStrExtend(line + CRLF, w);
    CStrNone(line + CRLF);
    TrimLine(line, CStr(w));
    ScanSignedStops(TrimFront(line), CStr(w));
  }

  lemma TrimLine(line: string, c: string)
    requires !Blank(line)
    ensures TrimFront(line + CRLF + c) == TrimFront(line) + CRLF + c
    ensures TrimFront(line + CRLF) == TrimFront(line) + CRLF
  {
    TrimFrontExtend(line, CRLF);
    TrimFrontExtend(line, CRLF + c);
    assert line + CRLF + c == line + (CRLF + c);
    assert TrimFront(line) + CRLF + c == TrimFront(line) + (CRLF + c);
  }

  lemma CStrNone(s: string)
    requires '\0' !in s
    ensures CStr(s) == s
  {
    hide FindChar;
  }

  lemma ScanDigitsMonotone(t: string, d: string, neg: bool)
    requires ScanHexDigits(t, neg).Some?
    ensures ScanHexDigits(t + d, neg).Some?
  {
    assert (t + d)[0] == t[0];
  }

  lemma ScanSignedMonotone(t: string, d: string)
    requires ScanHexSigned(t).Some?
    ensures ScanHexSigned(t + d).Some?
  {
    if t[0] == '-' || t[0] == '+' {
      ScanDigitsMonotone(t[1..], d, t[0] == '-');
      assert (t + d)[1..] == t[1..] + d;
    } else {
      ScanDigitsMonotone(t, d, false);
    }
  }

  /** More text can make a scan succeed but never turns a success into a failure. */
  lemma ScanHexMonotone(s: string, w: string)
    requires ScanHex(s).Some?
    ensures ScanHex(s + w).Some?
  {
    CStrExtend(s, w);
    if |CStr(s)| == |s| {
      assert CStr(s) == s;
      TrimFrontExtend(s, CStr(w));
      ScanSignedMonotone(TrimFront(s), CStr(w));
    }
  }

  // ---------------------------------------------------------------- printing

  /** printf("%x"). */
  function Hex(n: nat): (s: string)
    ensures s != "" && forall i :: 0 <= i < |s| ==> IsHexDigit(s[i])
  {
    if n < 16 then [HexChar(n)] else Hex(n / 16) + [HexChar(n % 16)]
  }

  function HexChar(d: nat): (c: char)
    requires d < 16
    ensures IsHexDigit(c) && HexValue(c) == d
  {
    if d < 10 then ('0' as int + d) as char else ('a' as int + d - 10) as char
  }

  /** printf("%u") and "%ld" of a non-negative number. */
  function Dec(n: nat): (s: string)
    ensures s != "" && forall i :: 0 <= i < |s| ==> IsDigit(s[i])
  {
    if n < 10 then [('0' as int + n) as char] else Dec(n / 10) + [('0' as int + n % 10) as char]
  }

  lemma {:induction false} HexRunAppend(u: string, w: string, acc: nat)
    requires forall i :: 0 <= i < |u| ==> IsHexDigit(u[i])
    ensures HexRun(u + w, acc) == HexRun(w, HexRun(u, acc))
  {
    if u == "" {
      assert u + w == w;
    } else {
      assert (u + w)[1..] == u[1..] + w;
      HexRunAppend(u[1..], w, acc * 16 + HexValue(u[0]));
    }
  }

  lemma {:induction false} DecRunAppend(u: string, w: string, acc: nat)
    requires forall i :: 0 <= i < |u| ==> IsDigit(u[i])
    ensures DecRun(u + w, acc) == DecRun(w, DecRun(u, acc))
  {
    if u == "" {
      assert u + w == w;
    } else {
      assert (u + w)[1..] == u[1..] + w;
      DecRunAppend(u[1..], w, acc * 10 + DigitValue(u[0]));
    }
  }

  lemma {:induction false} HexRunOfHex(n: nat)
    ensures HexRun(Hex(n), 0) == n
  {
    if n < 16 {
      assert Hex(n)[1..] == "";
    } else {
      HexRunOfHex(n / 16);
      HexRunAppend(Hex(n / 16), [HexChar(n % 16)], 0);
      assert [HexChar(n % 16)][1..] == "";
      assert HexRun([HexChar(n % 16)], n / 16) == HexRun("", n / 16 * 16 + n % 16);
    }
  }

  lemma {:induction false} DecRunOfDec(n: nat)
    ensures DecRun(Dec(n), 0) == n
  {
    if n < 10 {
      assert Dec(n)[1..] == "";
    } else {
      DecRunOfDec(n / 10);
      var c := ('0' as int + n % 10) as char;
      DecRunAppend(Dec(n / 10), [c], 0);
      assert [c][1..] == "";
      assert DecRun([c], n / 10) == DecRun("", n / 10 * 10 + n % 10);
    }
  }

  lemma HexNotX(n: nat)
    ensures |Hex(n)| >= 2 ==> Hex(n)[0] != '0'
  {
    if 16 <= n { HexFirst(n / 16); }
  }

  lemma {:induction false} HexFirst(n: nat)
    requires n > 0
    ensures Hex(n)[0] != '0'
  {
    if 16 <= n { HexFirst(n / 16); }
  }

  /** The size line printf writes is read back by scanf modulo the width of the scanned type. */
  lemma HexReadBack(n: nat, w: string)
    ensures ScanHex(Hex(n) + CRLF + w) == Some(ToUnsigned(n, false))
  {
    var h := Hex(n);
    assert forall i :: 0 <= i < |h| ==> h[i] != '\0';
    assert IsHexDigit(h[0]);
    ScanHexLocal(h, w);
    assert '\0' !in h + CRLF;
    CStrNone(h + CRLF);
    assert TrimFront(h + CRLF) == h + CRLF;
    HexScans(n);
  }

  lemma HexScans(n: nat)
    ensures ScanHexSigned(Hex(n) + CRLF) == Some(ToUnsigned(n, false))
  {
    var h := Hex(n);
    HexRunAppend(h, CRLF, 0);
    HexRunOfHex(n);
    HexNotX(n);
    assert HexRun(CRLF, n) == n;
    hide Hex, HexRun;
    assert IsHexDigit(h[0]);
    assert |h| == 1 ==> (h + CRLF)[1] == '\r';
  }

  /** So the size arrives if and only if it fits into 32 bits. */
  lemma HexRoundTrip(n: nat, w: string)
    ensures ScanHex(Hex(n) + CRLF + w) == Some(n) <==> n < 0x1_0000_0000
  {
    HexReadBack(n, w);
    hide ScanHex, Hex;
  }

  /** atoll undoes printf for every length an off_t can hold. */
  lemma DecRoundTrip(n: nat, w: string)
    requires n <= LLONG_MAX
    requires w == "" || !IsDigit(w[0])
    ensures Atoll(Dec(n) + w) == n
  {
    var d := Dec(n);
    assert TrimFront(d + w) == d + w;
    DecRunAppend(d, w, 0);
    DecRunOfDec(n);
  }

  // ---------------------------------------------------------------- strtoul

  /** How many digits a text starts with. */
  function Digits(s: string): (n: nat)
    ensures n <= |s| && forall i :: 0 <= i < n ==> IsDigit(s[i])
    ensures n < |s| ==> !IsDigit(s[n])
  {
    if s != "" && IsDigit(s[0]) then 1 + Digits(s[1..]) else 0
  }

  const WORD: nat := 0x1_0000_0000_0000_0000

  /** strtoul with base 10: the value and what follows, or None if there is no number. */
  function StrToUl(s: string): Option<(nat, string)> {
    var t := TrimFront(s);
    var neg := t != "" && t[0] == '-';
    var u := if t != "" && (t[0] == '-' || t[0] == '+') then t[1..] else t;
    if Digits(u) == 0 then None
    else
      var v := DecRun(u, 0);
      Some((if v >= WORD then WORD - 1 else if neg && v > 0 then WORD - v else v, u[Digits(u)..]))
  }

  lemma {:induction false} DigitsOf(d: string, rest: string)
    requires forall i :: 0 <= i < |d| ==> IsDigit(d[i])
    requires rest != "" ==> !IsDigit(rest[0])
    ensures Digits(d + rest) == |d|
    decreases |d|
  {
    if d == "" {
      assert d + rest == rest;
    } else {
      DigitsOf(d[1..], rest);
      assert (d + rest)[1..] == d[1..] + rest;
    }
  }

  lemma NumberOf(n: nat, rest: string)
    requires n < WORD && rest != "" && !IsDigit(rest[0])
    ensures StrToUl(Dec(n) + rest) == Some((n, rest))
  {
    hide Dec;
    var s := Dec(n) + rest;
    assert IsDigit(Dec(n)[0]) && s[0] == Dec(n)[0];
    assert TrimFront(s) == s;
    DigitsOf(Dec(n), rest);
    assert s[|Dec(n)|..] == rest;
    DecRunAppend(Dec(n), rest, 0);
    DecRunOfDec(n);
  }
}
