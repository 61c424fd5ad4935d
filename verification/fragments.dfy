/** The decoder and the fragmentation of the stream: how a byte stream is cut into reads does
    not matter, except at three places in the decoder, and there it really does. */
module Fragments {
  import opened Text
  import opened HeaderParser
  import opened RemoteStatus
  import opened Decoder

  /** `r` is what happens with the bytes so far, `w` with more bytes behind them, and `again`
      when decoding resumes with the bytes `r` left plus those that came later. */
  ghost predicate Continues(r: Turn, w: Turn, again: Turn, more: string) {
    && !r.fragile
    && (r.Go? ==> w == Go(r.job, r.buf + more, false))
    && (r.Return? && r.flags != {} ==> w == Return(r.job, r.buf + more, r.flags, false))
    && (r.Return? && r.flags == {} ==> w == again)
  }

  lemma AnswerSplit(j: Job, a: string, b: string, h: HeadData, n: nat, probe: bool)
    requires j.phase.GetHeader? && 0 < n <= |a|
    requires !AnswerTurn(j, a + b, h, n, probe).fragile
    ensures var r := AnswerTurn(j, a, h, n, probe);
      Continues(r, AnswerTurn(j, a + b, h, n, probe), HeaderTurn(j, r.buf + b, probe), b)
  {
    hide Parse, SaysClose, SaysChunked, Atoofft, FieldOf, IsRedirect;
    DropGrows(a, b, n);
    var contLen := Atoofft(FieldOf(h, ContentLength), 0);
    if 0 <= contLen <= |a| { DropGrows(a, b, contLen); }
    if Parse(EMPTY_HEAD, a[n..]).0 != 0 { LoadStable(EMPTY_HEAD, a[n..], b); }
  }

  lemma HeaderSplit(j: Job, a: string, b: string, probe: bool)
    requires j.phase.GetHeader?
    requires !HeaderTurn(j, a + b, probe).fragile
    ensures var r := HeaderTurn(j, a, probe);
      Continues(r, HeaderTurn(j, a + b, probe), HeaderTurn(j, r.buf + b, probe), b)
  {
    var (n, h) := Parse(EMPTY_HEAD, a);
    LoadLength(EMPTY_HEAD, a);
    if n != 0 {
      LoadStable(EMPTY_HEAD, a, b);
      assert a != "";
      if n > 0 && h.kind.Answer? {
        hide Parse, AnswerTurn;
        AnswerSplit(j, a, b, h, n, probe);
      }
    }
    hide Parse, AnswerTurn;
  }

  lemma DataSplit(j: Job, a: string, b: string)
    requires j.phase.ProcessData? || j.phase.ProcessChunkData?
    ensures var r := DataTurn(j, a);
      Continues(r, DataTurn(j, a + b), DataTurn(r.job, r.buf + b), b)
  {
    if |a| < j.rest {
      DataShort(j, a, b);
    } else {
      DataFull(j, a, b);
    }
  }

  lemma DataShort(j: Job, a: string, b: string)
    requires (j.phase.ProcessData? || j.phase.ProcessChunkData?) && |a| < j.rest
    ensures var r := DataTurn(j, a);
      Continues(r, DataTurn(j, a + b), DataTurn(r.job, r.buf + b), b)
  {
    var n := if |a + b| < j.rest then |a + b| else j.rest;
    TakeGrows(j.stored, a, b, n);
    assert a[..|a|] == a && a[|a|..] == "" && "" + b == b;
    var r := DataTurn(j, a);
    assert r.buf + b == b && r.job.rest == j.rest - |a|;
    assert r.job.stored == if j.allow then j.stored + a else j.stored;
  }

  lemma DataFull(j: Job, a: string, b: string)
    requires (j.phase.ProcessData? || j.phase.ProcessChunkData?) && j.rest <= |a|
    ensures var r := DataTurn(j, a);
      Continues(r, DataTurn(j, a + b), DataTurn(r.job, r.buf + b), b)
  {
    assert (a + b)[..j.rest] == a[..j.rest];
    DropGrows(a, b, j.rest);
  }

  lemma TakeGrows(s: string, a: string, b: string, n: nat)
    requires |a| <= n <= |a + b|
    ensures (a + b)[..n] == a + b[..n - |a|]
    ensures (a + b)[n..] == b[n - |a|..]
    ensures s + (a + b)[..n] == s + a + b[..n - |a|]
  {
    assert (a + b)[..n] == a + b[..n - |a|];
  }

  lemma {:induction false} DropNewlinesExtend(a: string, b: string)
    ensures DropNewlines(a + b) == if DropNewlines(a) == "" then DropNewlines(b) else DropNewlines(a) + b
  {
    if a == "" {
      assert a + b == b;
    } else if a[0] == '\r' || a[0] == '\n' {
      assert (a + b)[1..] == a[1..] + b;
      DropNewlinesExtend(a[1..], b);
    }
  }

  /** Whether the scan of a chunk size is settled by the bytes up to the line end. */
  lemma ScanSplit(c: string, b: string)
    requires StrStrCrlf(c).Some?
    ensures !Blank(c[..StrStrCrlf(c).value]) ==> ScanHex(c + b) == ScanHex(c)
    ensures ScanHex(c).Some? ==> ScanHex(c + b).Some?
  {
    hide ScanHex, StrStrCrlf, Blank;
    LineInBuffer(c);
    var k := StrStrCrlf(c).value;
    var line := c[..k];
    if ScanHex(c).Some? { ScanHexMonotone(c, b); }
    if !Blank(line) {
      ScanHexLocal(line, c[k + 2..]);
      ScanHexLocal(line, c[k + 2..] + b);
      assert c + b == line + CRLF + (c[k + 2..] + b);
    }
  }

  lemma LineInBuffer(c: string)
    requires StrStrCrlf(c).Some?
    ensures var k := StrStrCrlf(c).value;
      k + 2 <= |c| && '\0' !in c[..k] && c == c[..k] + CRLF + c[k + 2..]
  {
    hide FindCrlf, FindChar;
    var k := StrStrCrlf(c).value;
    assert CrlfAt(CStr(c), k);
  }

  lemma ChunkHeadSplit(j: Job, a: string, b: string)
    requires j.phase.GetChunkHead?
    requires !ChunkHeadTurn(j, a + b).fragile
    ensures var r := ChunkHeadTurn(j, a);
      Continues(r, ChunkHeadTurn(j, a + b), ChunkHeadTurn(j, r.buf + b), b)
  {
    hide ScanHex, Blank, StrStrCrlf, DropNewlines;
    var c := DropNewlines(a);
    DropNewlinesExtend(a, b);
    DropNewlinesExtend(c, b);
    DropNewlinesIdempotent(a);
    if StrStrCrlf(c).Some? {
      StrStrExtend(c, b);
      ScanSplit(c, b);
      LineInBuffer(c);
      var k := StrStrCrlf(c).value;
      assert (c + b)[..k] == c[..k];
      DropGrows(c, b, k + 2);
    }
  }

  lemma {:induction false} DropNewlinesIdempotent(a: string)
    ensures DropNewlines(DropNewlines(a)) == DropNewlines(a)
  {
    if a != "" && (a[0] == '\r' || a[0] == '\n') { DropNewlinesIdempotent(a[1..]); }
  }

  lemma TrailerSplit(j: Job, a: string, b: string)
    requires j.phase.GetChunkTrailer?
    ensures var r := TrailerTurn(j, a);
      Continues(r, TrailerTurn(j, a + b), TrailerTurn(j, r.buf + b), b)
  {
    hide StrStrCrlf;
    StrStrExtend(a, b);
    if |a| >= 2 && StrStrCrlf(a).Some? {
      LineInBuffer(a);
      DropGrows(a, b, StrStrCrlf(a).value + 2);
    }
  }

  lemma StepSplit(j: Job, a: string, b: string, probe: bool)
    requires !Step(j, a + b, probe).fragile
    ensures var r := Step(j, a, probe);
      Continues(r, Step(j, a + b, probe), Step(r.job, r.buf + b, probe), b)
  {
    hide HeaderTurn, DataTurn, ChunkHeadTurn, TrailerTurn;
    match j.phase
    case GetHeader => HeaderSplit(j, a, b, probe); WaitKeepsPhase(j, a, probe);
    case ProcessData => DataSplit(j, a, b); WaitKeepsPhase(j, a, probe);
    case ProcessChunkData => DataSplit(j, a, b); WaitKeepsPhase(j, a, probe);
    case GetChunkHead => ChunkHeadSplit(j, a, b); WaitKeepsPhase(j, a, probe);
    case GetChunkTrailer => TrailerSplit(j, a, b); WaitKeepsPhase(j, a, probe);
    case FinishJob =>
  }

  /** A turn that asks for more leaves the job as it was, up to data already consumed. */
  lemma WaitKeepsPhase(j: Job, buf: string, probe: bool)
    ensures var t := Step(j, buf, probe);
      t.Return? && t.flags == {} ==>
        t.job.phase == j.phase && (!j.phase.ProcessData? && !j.phase.ProcessChunkData? ==> t.job == j)
  {
    hide Parse, ScanHex, StrStrCrlf, DropNewlines, Blank;
  }

  /** One call of the decoder on a longer buffer is the call on a part of it, resumed with the
      rest if it asked for more and otherwise just leaving more bytes unread. */
  lemma {:induction false} ProcessSplit(j: Job, a: string, b: string, probe: bool)
    requires !Process(j, a + b, probe).fragile
    ensures var r := Process(j, a, probe);
      Continues(r, Process(j, a + b, probe), Process(r.job, r.buf + b, probe), b)
    decreases |a|, Rank(j.phase)
  {
    hide Step;
    StepSplit(j, a, b, probe);
    var r := Step(j, a, probe);
    if r.Go? {
      ProcessSplit(r.job, r.buf, b, probe);
    }
  }

  // ---------------------------------------------------------------- whole connections

  lemma {:induction false} PumpSplit(s: Session, b: string)
    requires !Pump(More(s, b)).1
    ensures !Pump(s).1
    ensures Pump(More(Pump(s).0, b)) == Pump(More(s, b))
    decreases |s.queue|
  {
    hide Process;
    if s.buf != "" && s.queue != [] && s.halted == {} {
      ProcessSplit(s.queue[0], s.buf, b, false);
      var t := Process(s.queue[0], s.buf, false);
      if t.flags == {} {
        assert s.queue[0 := t.job][0] == t.job;
        var w := Process(s.queue[0], s.buf + b, false);
        assert w == Process(t.job, t.buf + b, false);
        assert s.queue[0 := t.job][1..] == s.queue[1..];
        assert s.queue[0 := t.job][0 := w.job] == s.queue[0 := w.job];
        if t.buf + b == "" {
          assert b == "" && s.buf + b == s.buf;
        }
      } else if Done in t.flags {
        PumpSplit(Session(s.queue[1..], s.finished + [t.job], t.buf, {}), b);
      }
    }
  }

  /** Reading a stream in any pieces leaves the same jobs, the same stored bytes, the same
      flags and the same unread bytes as reading it at once. */
  lemma {:induction false} FragmentationIndependence(s: Session, pieces: seq<string>)
    requires pieces != []
    requires !Fragile(s, Concat(pieces))
    ensures FeedAll(s, pieces) == Feed(s, Concat(pieces))
    decreases |pieces|
  {
    hide Pump;
    if |pieces| == 1 {
      assert pieces[0] + "" == pieces[0];
    } else {
      var rest := Concat(pieces[1..]);
      var s1 := More(s, pieces[0]);
      assert More(s1, rest) == More(s, Concat(pieces)) by { assert s.buf + pieces[0] + rest == s.buf + (pieces[0] + rest); }
      PumpSplit(s1, rest);
      FragmentationIndependence(Feed(s, pieces[0]), pieces[1..]);
    }
  }

  /** Two ways to cut the same stream cannot be told apart afterwards. */
  lemma AnyTwoSplits(s: Session, one: seq<string>, two: seq<string>)
    requires one != [] && two != [] && Concat(one) == Concat(two)
    requires !Fragile(s, Concat(one))
    ensures FeedAll(s, one) == FeedAll(s, two)
  {
    FragmentationIndependence(s, one);
    FragmentationIndependence(s, two);
  }
}
