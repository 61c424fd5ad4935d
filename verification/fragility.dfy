/** The converse of Fragments: whenever the decoder meets one of its fragile places, there is
    a way to cut the very same stream that ends differently. */
module Fragility {
  import opened Text
  import opened Splitter
  import opened HeaderParser
  import opened RemoteStatus
  import opened Decoder
  import opened Fragments

  // ---------------------------------------------------------------- the head parser is local

  lemma {:induction false} LinesLocal(h: HeadData, last: Option<Field>, rest: string, off: nat)
    requires Lines(h, last, rest, off).0 > 0
    ensures var m := Lines(h, last, rest, off).0;
      off < m <= off + |rest| && Lines(h, last, rest[..m - off], off) == Lines(h, last, rest, off)
    decreases |rest|
  {
    FieldLineReturns(h, last, LineOf(rest));
    LineAndRest(rest);
    hide FieldLine, LineOf, AfterLine, FindCrlf;
    var m := Lines(h, last, rest, off).0;
    var line, x := LineOf(rest), AfterLine(rest).value;
    if line == "" {
      LineOfFirst("", "");
      assert rest[..2] == "" + CRLF + "";
    } else {
      var e := FieldLine(h, last, line);
      LinesLocal(e.head, e.last, x, off + |line| + 2);
      var y := x[..m - off - |line| - 2];
      LineOfFirst(line, y);
      assert rest[..m - off] == line + CRLF + y;
    }
  }

  /** The bytes behind a head play no part in parsing it. */
  lemma LoadLocal(h: HeadData, c: string)
    requires Parse(h, c).0 > 0 && Parse(h, c).1.kind.Answer?
    ensures var m := Parse(h, c).0; m <= |c| && Parse(h, c[..m]) == Parse(h, c)
  {
    hide KindOf, Body, Started;
    KindKept(h, c);
    var h1 := Started(h, Answer, c[7]);
    BodyLocal(h1, c[8..], 8);
    var m := Parse(h, c).0;
    Prefix(c, m, 8);
    KindStable(c[..m], c[m..]);
  }

  lemma Prefix(c: string, m: nat, k: nat)
    requires 9 <= m <= |c| && k <= 8
    ensures c[..m] + c[m..] == c
    ensures c[..m][k..] == c[k..][..m - k] && c[..m][7] == c[7]
  {
  }

  lemma BodyLocal(h: HeadData, rest: string, off: nat)
    requires Body(h, rest, off).0 > 0
    ensures var m := Body(h, rest, off).0;
      off + 2 < m <= off + |rest| && Body(h, rest[..m - off], off) == Body(h, rest, off)
  {
    LineAndRest(rest);
    hide FirstLine, Lines, LineOf, AfterLine, FindCrlf;
    var line, x := LineOf(rest), AfterLine(rest).value;
    var (_, h1) := FirstLine(h, line);
    LinesLocal(h1, None, x, off + |line| + 2);
    var m := Body(h, rest, off).0;
    var y := x[..m - off - |line| - 2];
    LineOfFirst(line, y);
    assert rest[..m - off] == line + CRLF + y;
  }

  lemma {:induction false} LinesKeepKind(h: HeadData, last: Option<Field>, rest: string, off: nat)
    ensures Lines(h, last, rest, off).1.kind == h.kind
    decreases |rest|
  {
    FieldLineKeepsKind(h, last, LineOf(rest));
    hide FieldLine, LineOf, AfterLine;
    if LineOf(rest) != "" && FieldLine(h, last, LineOf(rest)).Update? && AfterLine(rest).Some? {
      var e := FieldLine(h, last, LineOf(rest));
      LinesKeepKind(e.head, e.last, AfterLine(rest).value, off + |LineOf(rest)| + 2);
    }
  }

  lemma FieldLineKeepsKind(h: HeadData, last: Option<Field>, line: string)
    ensures FieldLine(h, last, line).Update? ==> FieldLine(h, last, line).head.kind == h.kind
  {
    hide Resolve, TrimBack, TrimFront, FindChar;
  }

  lemma KindKept(h: HeadData, c: string)
    requires Parse(h, c).0 > 0
    ensures |c| >= 9 && Parse(h, c).1.kind == KindOf(c).0
  {
    hide KindOf, Body;
    var (kind, off) := KindOf(c);
    BodyKeepsKind(Started(h, kind, c[7]), c[off..], off);
  }

  lemma BodyKeepsKind(h: HeadData, rest: string, off: nat)
    ensures Body(h, rest, off).1.kind == h.kind
  {
    hide Lines, LineOf, AfterLine, StatusOf, TrimBoth, TrimBack;
    var (_, h1) := FirstLine(h, LineOf(rest));
    if AfterLine(rest).Some? {
      LinesKeepKind(h1, None, AfterLine(rest).value, off + |LineOf(rest)| + 2);
    }
  }

  // ---------------------------------------------------------------- a shorter buffer will do

  /** A head that is whole in `c` is the same head in every cut of `c` that contains it. */
  lemma HeadInCut(c: string, n: nat)
    requires Parse(EMPTY_HEAD, c).0 > 0 && Parse(EMPTY_HEAD, c).1.kind.Answer?
    requires Parse(EMPTY_HEAD, c).0 <= n <= |c|
    ensures Parse(EMPTY_HEAD, c[..n]) == Parse(EMPTY_HEAD, c)
  {
    hide Parse;
    LoadLocal(EMPTY_HEAD, c);
    var m := Parse(EMPTY_HEAD, c).0;
    LoadStable(EMPTY_HEAD, c[..m], c[m..n]);
    assert c[..m] + c[m..n] == c[..n];
  }

  lemma AnswerShort(j: Job, a: string, b: string, h: HeadData, m: nat)
    requires 0 < m <= |a|
    requires AnswerTurn(j, a + b, h, m, false).Go?
    ensures AnswerTurn(j, a, h, m, false).Go?
  {
    hide Parse, SaysClose, SaysChunked, Atoofft, FieldOf, IsRedirect;
  }

  lemma HeaderShort(j: Job, c: string, n: nat)
    requires j.phase.GetHeader? && n <= |c|
    requires HeaderTurn(j, c, false).Go? && |c| - |HeaderTurn(j, c, false).buf| <= n
    ensures HeaderTurn(j, c[..n], false).Go?
  {
    var (m, h) := Parse(EMPTY_HEAD, c);
    LoadLength(EMPTY_HEAD, c);
    hide Parse, AnswerTurn;
    assert HeaderTurn(j, c, false).buf == c[m..] by { AnswerDrops(j, c, h, m); }
    HeadInCut(c, n);
    assert c == c[..n] + c[n..];
    AnswerShort(j, c[..n], c[n..], h, m);
  }

  lemma AnswerDrops(j: Job, c: string, h: HeadData, m: nat)
    requires 0 < m <= |c|
    ensures AnswerTurn(j, c, h, m, false).Go? ==> AnswerTurn(j, c, h, m, false).buf == c[m..]
  {
    hide Parse, SaysClose, SaysChunked, Atoofft, FieldOf, IsRedirect;
  }

  /** The end of a line is found in every cut that contains it. */
  lemma CrlfInCut(c: string, n: nat)
    requires StrStrCrlf(c).Some? && StrStrCrlf(c).value + 2 <= n <= |c|
    ensures StrStrCrlf(c[..n]) == StrStrCrlf(c)
  {
    LineInBuffer(c);
    var k := StrStrCrlf(c).value;
    var line := c[..k];
    assert FindCrlf(line).None? by {
      hide FindCrlf;
      forall i ensures !CrlfAt(line, i) { assert CrlfAt(line, i) ==> CrlfAt(CStr(c), i); }
    }
    var a := line + CRLF;
    assert '\0' !in a;
    CStrNone(a);
    FindLineEnd(line, "");
    assert line + CRLF + "" == a;
    StrStrExtend(a, c[k + 2..n]);
    assert c[..n] == a + c[k + 2..n];
  }

  lemma {:induction false} DropNewlinesCut(c: string, n: nat)
    requires |c| - |DropNewlines(c)| <= n <= |c|
    ensures DropNewlines(c[..n]) == DropNewlines(c)[..n - (|c| - |DropNewlines(c)|)]
  {
    if c != "" && (c[0] == '\r' || c[0] == '\n') {
      DropNewlinesCut(c[1..], n - 1);
      assert c[..n][1..] == c[1..][..n - 1];
    } else {
      assert DropNewlines(c) == c;
      if n > 0 { assert c[..n][0] == c[0]; }
    }
  }

  lemma ChunkHeadShort(j: Job, c: string, n: nat)
    requires j.phase.GetChunkHead? && n <= |c|
    requires ChunkHeadTurn(j, c).Go? && !ChunkHeadTurn(j, c).fragile
    requires |c| - |ChunkHeadTurn(j, c).buf| <= n
    ensures ChunkHeadTurn(j, c[..n]).Go?
  {
    hide ScanHex, Blank, StrStrCrlf, DropNewlines;
    var d := DropNewlines(c);
    LineInBuffer(d);
    var k, x := StrStrCrlf(d).value, n - (|c| - |d|);
    DropNewlinesCut(c, n);
    CrlfInCut(d, x);
    ScanSplit(d[..x], d[x..]);
    assert d[..x] + d[x..] == d && d[..x][..k] == d[..k];
  }

  lemma TrailerShort(j: Job, c: string, n: nat)
    requires j.phase.GetChunkTrailer? && n <= |c|
    requires TrailerTurn(j, c).Go? && |c| - |TrailerTurn(j, c).buf| <= n
    ensures TrailerTurn(j, c[..n]).Go?
  {
    hide StrStrCrlf;
    LineInBuffer(c);
    CrlfInCut(c, n);
  }

  /** A turn that goes on, and is not fragile, needs only the bytes it consumes. */
  lemma StepShort(j: Job, c: string, n: nat)
    requires Step(j, c, false).Go? && !Step(j, c, false).fragile
    requires |c| - |Step(j, c, false).buf| <= n <= |c|
    ensures var t := Step(j, c, false);
      Step(j, c[..n], false) == Go(t.job, t.buf[..n - (|c| - |t.buf|)], false) && c[n..] == t.buf[n - (|c| - |t.buf|)..]
  {
    var a, b := c[..n], c[n..];
    assert c == a + b;
    hide HeaderTurn, ChunkHeadTurn, TrailerTurn;
    match j.phase {
      case GetHeader => HeaderShort(j, c, n);
      case GetChunkHead => ChunkHeadShort(j, c, n);
      case GetChunkTrailer => TrailerShort(j, c, n);
      case _ =>
    }
    assert Step(j, a, false).Go?;
    hide Step;
    StepSplit(j, a, b, false);
    var r, t := Step(j, a, false), Step(j, c, false);
    assert t.buf == r.buf + b;
  }

  // ---------------------------------------------------------------- where to cut

  /** The number of bytes up to and including the text that makes a turn fragile. */
  function StepCut(j: Job, c: string): nat
    requires Step(j, c, false).fragile
  {
    if j.phase.GetHeader? then Parse(EMPTY_HEAD, c).0
    else |c| - |DropNewlines(c)| + StrStrCrlf(DropNewlines(c)).value + 2
  }

  function Cut(j: Job, c: string): nat
    requires Process(j, c, false).fragile
    decreases |c|, Rank(j.phase)
  {
    var t := Step(j, c, false);
    if t.fragile then StepCut(j, c) else |c| - |t.buf| + Cut(t.job, t.buf)
  }

  /** How the runs differ: the cut one ends with bytes the other one has consumed, or the
      uncut one sits on a head that the cut one goes on to read. */
  ghost predicate Differ(r: Turn, w: Turn, b: string) {
    r.Return? && (
    || (r.flags != {} && Done !in r.flags && |w.buf| < |r.buf| + |b|)
    || (r.flags == {} && w.Return? && w.flags == {} && r.buf == "" && w.buf == b && r.job.phase.GetHeader? && Parse(EMPTY_HEAD, b).0 != 0))
  }

  lemma NothingIsNoHead()
    ensures Parse(EMPTY_HEAD, "").0 == 0
  {
  }

  lemma AnswerCut(j: Job, c: string, h: HeadData, m: nat)
    requires j.phase.GetHeader? && 0 < m <= |c|
    requires AnswerTurn(j, c, h, m, false).fragile
    ensures Differ(AnswerTurn(j, c[..m], h, m, false), AnswerTurn(j, c, h, m, false), c[m..])
    ensures AnswerTurn(j, c[..m], h, m, false).Return? && AnswerTurn(j, c, h, m, false).Return?
  {
    assert c[..m][m..] == "";
    NothingIsNoHead();
    hide Parse, SaysClose, SaysChunked, Atoofft, FieldOf, IsRedirect;
  }

  lemma BlankScan(line: string)
    requires Blank(line) && '\0' !in line
    ensures ScanHex(line + CRLF).None?
  {
    assert '\0' !in line + CRLF;
    CStrNone(line + CRLF);
    BlankTrim(line);
  }

  lemma {:induction false} BlankTrim(line: string)
    requires Blank(line)
    ensures TrimFront(line + CRLF) == ""
  {
    if line == "" {
      assert line + CRLF == CRLF && CRLF[1..] == "\n" && "\n"[1..] == "";
    } else {
      BlankTrim(line[1..]);
      assert (line + CRLF)[1..] == line[1..] + CRLF;
    }
  }

  lemma ChunkHeadAtCut(j: Job, c: string)
    requires j.phase.GetChunkHead? && ChunkHeadTurn(j, c).fragile
    ensures var k := StepCut(j, c);
      && k <= |c| && ChunkHeadTurn(j, c[..k]).Return? && ChunkHeadTurn(j, c[..k]).flags == {JobBroken}
      && |ChunkHeadTurn(j, c).buf| < |ChunkHeadTurn(j, c[..k]).buf| + |c[k..]|
  {
    hide ScanHex, Blank, StrStrCrlf, DropNewlines;
    var k, d := StepCut(j, c), DropNewlines(c);
    LineInBuffer(d);
    var x := StrStrCrlf(d).value + 2;
    DropNewlinesCut(c, k);
    CrlfInCut(d, x);
    BlankScan(d[..x - 2]);
    assert d[..x] == d[..x - 2] + CRLF;
    assert d[..x][..x - 2] == d[..x - 2];
  }

  lemma StepAtCut(j: Job, c: string)
    requires Step(j, c, false).fragile
    ensures var k := StepCut(j, c);
      k <= |c| && Step(j, c[..k], false).Return? &&
      Differ(Step(j, c[..k], false), Step(j, c, false), c[k..])
    ensures Step(j, c, false).Go? ==> Step(j, c[..StepCut(j, c)], false).flags != {}
  {
    if j.phase.GetHeader? {
      LoadLength(EMPTY_HEAD, c);
      hide Parse, AnswerTurn;
      var (m, h) := Parse(EMPTY_HEAD, c);
      HeadInCut(c, m);
      AnswerCut(j, c, h, m);
    } else {
      hide Parse, ChunkHeadTurn;
      assert j.phase.GetChunkHead?;
      ChunkHeadAtCut(j, c);
    }
  }

  lemma StepCutPositive(j: Job, c: string)
    requires Step(j, c, false).fragile
    ensures StepCut(j, c) > 0
  {
    hide Parse, ScanHex, StrStrCrlf, DropNewlines, AnswerTurn;
  }

  lemma {:induction false} ProcessAtCut(j: Job, c: string)
    requires Process(j, c, false).fragile
    ensures var k := Cut(j, c);
      0 < k <= |c| && Differ(Process(j, c[..k], false), Process(j, c, false), c[k..])
    decreases |c|, Rank(j.phase)
  {
    var t := Step(j, c, false);
    if t.fragile {
      StepCutPositive(j, c);
      hide Step, StepCut;
      StepAtCut(j, c);
    } else {
      hide Step;
      ProcessAtCut(t.job, t.buf);
      StepShort(j, c, Cut(j, c));
    }
  }

  lemma {:induction false} ProcessShort(j: Job, c: string, n: nat)
    requires var t := Process(j, c, false); !t.fragile && Done in t.flags && |c| - |t.buf| <= n <= |c|
    ensures var t := Process(j, c, false);
      Process(j, c[..n], false) == t.(buf := t.buf[..n - (|c| - |t.buf|)])
      && c[n..] == t.buf[n - (|c| - |t.buf|)..]
    decreases |c|, Rank(j.phase)
  {
    var t := Step(j, c, false);
    if t.Go? {
      hide Step;
      StepShort(j, c, n);
      ProcessShort(t.job, t.buf, n - (|c| - |t.buf|));
    } else {
      OnlyFinishIsDone(j, c);
      assert c[..n][..n] == c[..n];
    }
  }

  lemma OnlyFinishIsDone(j: Job, c: string)
    ensures Step(j, c, false).Return? && Done in Step(j, c, false).flags ==> j.phase.FinishJob?
  {
    hide Parse, ScanHex, StrStrCrlf, DropNewlines, Blank, SaysClose, SaysChunked, Atoofft, FieldOf, IsRedirect;
  }

  lemma {:induction false} PumpShrinks(s: Session)
    ensures |Pump(s).0.buf| <= |s.buf|
    decreases |s.queue|
  {
    hide Process;
    if s.buf != "" && s.queue != [] && s.halted == {} {
      var t := Process(s.queue[0], s.buf, false);
      if Done in t.flags { PumpShrinks(Session(s.queue[1..], s.finished + [t.job], t.buf, {})); }
    }
  }

  /** A decoder that waits for a head never sits on one: it consumes bytes or gives up. */
  lemma HeadMoves(j: Job, b: string)
    requires j.phase.GetHeader? && Parse(EMPTY_HEAD, b).0 != 0
    ensures var t := Process(j, b, false);
      |t.buf| < |b| || (t.flags != {} && Done !in t.flags)
  {
    HeadTurnMoves(j, b);
    hide HeaderTurn;
    assert Step(j, b, false) == HeaderTurn(j, b, false);
    hide Step;
  }

  lemma HeadTurnMoves(j: Job, b: string)
    requires j.phase.GetHeader? && Parse(EMPTY_HEAD, b).0 != 0
    ensures var t := HeaderTurn(j, b, false);
      |t.buf| < |b| || (t.Return? && t.flags != {} && Done !in t.flags)
  {
    hide Parse, AnswerTurn;
    LoadLength(EMPTY_HEAD, b);
    NothingIsNoHead();
    var (n, h) := Parse(EMPTY_HEAD, b);
    if n > 0 && h.kind.Answer? { AnswerMoves(j, b, h, n); }
  }

  lemma AnswerMoves(j: Job, b: string, h: HeadData, n: nat)
    requires 0 < n <= |b|
    ensures var t := AnswerTurn(j, b, h, n, false);
      |t.buf| < |b| || (t.Return? && t.flags != {} && Done !in t.flags)
  {
    hide Parse, SaysClose, SaysChunked, Atoofft, FieldOf, IsRedirect;
  }

  lemma FeedTwo(s: Session, x: string, y: string)
    ensures FeedAll(s, [x, y]) == Feed(Feed(s, x), y)
    ensures Concat([x, y]) == x + y
  {
    hide Feed;
    assert [x, y][1..] == [y] && [y][1..] == [];
    assert FeedAll(Feed(s, x), [y]) == Feed(Feed(s, x), y);
    assert Concat([y]) == y;
  }

  lemma {:induction false} PumpAtCut(s: Session) returns (k: nat)
    requires Pump(s).1
    ensures 0 < k <= |s.buf|
    ensures Pump(More(Pump(s.(buf := s.buf[..k])).0, s.buf[k..])).0 != Pump(s).0
    decreases |s.queue|
  {
    hide Process, Cut;
    var c := s.buf;
    var t := Process(s.queue[0], c, false);
    if t.fragile {
      k := Cut(s.queue[0], c);
      ProcessAtCut(s.queue[0], c);
      var r := Process(s.queue[0], c[..k], false);
      PumpShrinks(s);
      if Done in t.flags { PumpShrinks(Session(s.queue[1..], s.finished + [t.job], t.buf, {})); }
      if r.flags == {} {
        var s1 := Pump(s.(buf := c[..k])).0;
        assert s1.queue[0] == r.job;
        HeadMoves(r.job, c[k..]);
        var u := Process(r.job, c[k..], false);
        if Done in u.flags { PumpShrinks(Session(s1.queue[1..], s1.finished + [u.job], u.buf, {})); }
        assert "" + c[k..] == c[k..];
      }
    } else {
      var s1 := Session(s.queue[1..], s.finished + [t.job], t.buf, {});
      var k1 := PumpAtCut(s1);
      k := |c| - |t.buf| + k1;
      ProcessShort(s.queue[0], c, k);
    }
  }

  /** Exactly the fragile streams are fragile: reading such a stream at once is told apart from
      reading it in two pieces, cut behind the text that made it fragile. */
  lemma SplitMatters(s: Session, bytes: string) returns (k: nat)
    requires s.buf == "" && Fragile(s, bytes)
    ensures k <= |bytes| && FeedAll(s, [bytes[..k], bytes[k..]]) != Feed(s, bytes)
  {
    hide Pump;
    assert s.buf + bytes == bytes;
    k := PumpAtCut(More(s, bytes));
    assert s.buf + bytes[..k] == bytes[..k];
    FeedTwo(s, bytes[..k], bytes[k..]);
  }

  /** How the stream is cut cannot be seen in what one reading of it all leaves behind. */
  ghost predicate CutsDoNotMatter(s: Session, bytes: string) {
    forall pieces :: pieces != [] && Concat(pieces) == bytes ==> FeedAll(s, pieces) == Feed(s, bytes)
  }

  /** Together with FragmentationIndependence: the cut never matters if and only if the
      decoder, reading the stream at once, meets no fragile place. */
  lemma IndependentIffNotFragile(s: Session, bytes: string)
    requires s.buf == ""
    ensures CutsDoNotMatter(s, bytes) <==> !Fragile(s, bytes)
  {
    hide Feed, FeedAll, Fragile, Concat;
    if Fragile(s, bytes) {
      var k := SplitMatters(s, bytes);
      FeedTwo(s, bytes[..k], bytes[k..]);
      assert bytes[..k] + bytes[k..] == bytes;
    } else {
      forall pieces | pieces != [] && Concat(pieces) == bytes
        ensures FeedAll(s, pieces) == Feed(s, bytes)
      {
        FragmentationIndependence(s, pieces);
      }
    }
  }
}
