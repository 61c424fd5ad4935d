/** The three fragile places of the decoder: a stream for each of them, and the ordinary streams,
    which meet none. */
module FragilePlaces {
  import opened Text
  import opened HeaderParser
  import opened RemoteStatus
  import opened Decoder
  import opened Wire
  import F = Fragments
  import G = Fragility
  import E = EndToEnd

  // ---------------------------------------------------------------- each of them can be met

  /** The first turn of a lone job decides: there is a way to cut the text that shows. */
  lemma PlaceCounts(j: Job, text: string)
    requires text != "" && Step(j, text, false).fragile
    ensures !G.CutsDoNotMatter(Waiting([j]), text)
  {
    hide Step;
    assert "" + text == text;
    var t := Process(j, text, false);
    assert t.fragile;
    G.IndependentIffNotFragile(Waiting([j]), text);
  }

  lemma BlankLine(line: string, w: string)
    requires line == " "
    ensures StrStrCrlf(line + CRLF + w) == Some(1)
  {
    assert '\0' !in line + CRLF;
    CStrExtend(line + CRLF, w);
    CStrNone(line + CRLF);
    hide FindCrlf;
    assert FindCrlf(line).None?;
    FindLineEnd(line, CStr(w));
  }

  /** A size line of blanks alone: with the next line at hand, scanf reads the size from there. */
  lemma BlankSizeLine(j: Job)
    requires j.phase.GetChunkHead?
    ensures !G.CutsDoNotMatter(Waiting([j]), " \r\n5\r\n")
  {
    var b := " \r\n5\r\n";
    assert b == " " + CRLF + "5\r\n";
    BlankLine(" ", "5\r\n");
    assert b[..1] == " ";
    ScanFive(b);
    assert Step(j, b, false).fragile by { hide StrStrCrlf, ScanHex; }
    PlaceCounts(j, b);
  }

  lemma ScanFive(b: string)
    requires b == " \r\n5\r\n"
    ensures ScanHex(b).Some?
  {
    var t := "5\r\n";
    assert b[1..] == "\r\n5\r\n" && "\r\n5\r\n"[1..] == "\n5\r\n" && "\n5\r\n"[1..] == t;
    assert TrimFront(b) == TrimFront("\r\n5\r\n") == TrimFront("\n5\r\n") == TrimFront(t) == t;
    assert '\0' !in b;
    CStrNone(b);
  }

  /** An interim answer with the next head right behind it: it is read only when more bytes come. */
  lemma InterimThenHead(j: Job, interim: Reply, next: Reply)
    requires j.phase.GetHeader? && Printed(interim) && Printed(next)
    requires interim.code < 200 && !SaysClose(HeadOf(interim))
    ensures !G.CutsDoNotMatter(Waiting([j]), HeadText(interim) + HeadText(next))
  {
    hide HeadText, Collect, PrintableMsg, Printable, Parse, SaysClose;
    var head := HeadText(interim);
    var text := head + HeadText(next);
    ParsePrinted(interim);
    ParsePrinted(next);
    LoadStable(EMPTY_HEAD, head, HeadText(next));
    assert text[|head|..] == HeadText(next);
    PlaceCounts(j, text);
  }

  predicate Printed(a: Reply) {
    0 < a.code < 0x8000_0000 && PrintableMsg(a.msg) && forall f :: f in a.fields ==> Printable(f)
  }

  lemma ParsePrinted(a: Reply)
    requires Printed(a)
    ensures Parse(EMPTY_HEAD, HeadText(a)) == (|HeadText(a)|, HeadOf(a)) && HeadText(a) != ""
  {
    hide PrintAnswer, Collect, PrintableMsg, Printable, Parse;
    ParseOfPrinted(EMPTY_HEAD, a.proto, a.code, a.msg, a.fields);
    NotEmpty(a);
  }

  /** A redirection whose announced length is longer than its head, all of it at hand: only then
      is it dropped. */
  lemma LongRedirect(j: Job, a: Reply, tail: string)
    requires j.phase.GetHeader? && Printed(a) && IsRedirect(a.code)
    requires j.rules.followRedirects && j.rules.rewrite(FieldOf(HeadOf(a), Location))
    requires |HeadText(a)| < Atoofft(FieldOf(HeadOf(a), ContentLength), 0) <= |HeadText(a)| + |tail|
    ensures !G.CutsDoNotMatter(Waiting([j]), HeadText(a) + tail)
  {
    hide HeadText, Collect, PrintableMsg, Printable, Parse, SaysClose, Atoofft, FieldOf;
    ParsePrinted(a);
    LoadStable(EMPTY_HEAD, HeadText(a), tail);
    PlaceCounts(j, HeadText(a) + tail);
  }

  lemma PlainMsg(msg: string)
    requires msg != "" && forall i :: 0 <= i < |msg| ==> 'A' <= msg[i] <= 'z'
    ensures PrintableMsg(msg)
  {
  }

  const CONTINUE := Reply('1', 100, "Continue", [], Sized(""))
  const FOUND := Reply('1', 302, "Found", [("Content-Length", "99")], Sized(""))

  /** Such streams exist: two interim heads, and a redirection with a page of 57 bytes. */
  lemma TwoInterims(j: Job)
    requires j.phase.GetHeader?
    ensures !G.CutsDoNotMatter(Waiting([j]), HeadText(CONTINUE) + HeadText(CONTINUE))
  {
    PlainMsg("Continue");
    assert Collect([], map[]) == map[];
    assert !SaysClose(HeadOf(CONTINUE));
    hide HeadText, PrintableMsg, Printable, HeadOf, SaysClose;
    InterimThenHead(j, CONTINUE, CONTINUE);
  }

  lemma PageOfRedirect(j: Job, tail: string)
    requires j.phase.GetHeader? && j.rules.followRedirects && j.rules.rewrite(None) && |tail| == 57
    ensures !G.CutsDoNotMatter(Waiting([j]), HeadText(FOUND) + tail)
  {
    FoundPrinted();
    LengthField();
    hide HeadText, Printed, HeadOf, Atoofft, FieldOf, G.CutsDoNotMatter;
    LongRedirect(j, FOUND, tail);
  }

  lemma FoundPrinted()
    ensures Printed(FOUND)
  {
    PlainMsg("Found");
    LengthPrints();
    hide PrintableMsg, Printable;
    assert forall f :: f in FOUND.fields ==> f == FOUND.fields[0];
  }

  lemma LengthField()
    ensures Printable(FOUND.fields[0])
    ensures FieldOf(HeadOf(FOUND), Location) == None && Atoofft(FieldOf(HeadOf(FOUND), ContentLength), 0) == 99
    ensures |HeadText(FOUND)| == 42
  {
    hide LowerAll, ResolveFrom, Printable, PrintFields, Dec, Atoll;
    var fs := FOUND.fields;
    LengthPrints();
    E.ContentLengthResolves();
    assert Collect(fs, map[]) == map[ContentLength := "99"] by { hide Resolve; assert fs[1..] == []; }
    assert Atoofft(Some("99"), 0) == 99 by { NinetyNine(); }
  }

  lemma NinetyNine()
    ensures Atoll(CStr("99")) == 99
  {
    assert Dec(99) == "99" && "99" + "" == "99";
    DecRoundTrip(99, "");
    CStrNone("99");
  }

  lemma LengthPrints()
    ensures Printable(FOUND.fields[0])
    ensures |PrintFields(FOUND.fields)| == 22 && |Dec(302)| == 3
  {
    var f := FOUND.fields[0];
    hide FindCrlf;
    assert FOUND.fields[1..] == [];
    assert |f.0 + ": " + f.1 + CRLF + CRLF| == 22;
    assert |Dec(302)| == |Dec(30)| + 1;
  }

  // ---------------------------------------------------------------- streams that meet none

  /** No interim answer and no redirection that would be followed is read here, and a size line
      starts with a digit. */
  predicate PlainTurn(j: Job, buf: string) {
    && (j.phase.GetHeader? ==>
          var (n, h) := Parse(EMPTY_HEAD, buf);
          n > 0 && h.kind.Answer? ==> h.code >= 200 && !(j.rules.followRedirects && IsRedirect(h.code)))
    && (j.phase.GetChunkHead? ==>
          var b := DropNewlines(buf);
          b != "" && StrStrCrlf(b).Some? ==> IsHexDigit(b[0]))
  }

  predicate PlainRun(j: Job, buf: string)
    decreases |buf|, Rank(j.phase)
  {
    var t := Step(j, buf, false);
    PlainTurn(j, buf) && (t.Go? ==> PlainRun(t.job, t.buf))
  }

  predicate PlainSession(s: Session)
    decreases |s.queue|
  {
    s.buf == "" || s.queue == [] || s.halted != {} ||
    (PlainRun(s.queue[0], s.buf) &&
      var t := Process(s.queue[0], s.buf, false);
      (Done in t.flags ==> PlainSession(Session(s.queue[1..], s.finished + [t.job], t.buf, {}))))
  }

  lemma PlainHead(j: Job, buf: string)
    requires j.phase.GetHeader? && PlainTurn(j, buf)
    ensures !HeaderTurn(j, buf, false).fragile
  {
    LoadLength(EMPTY_HEAD, buf);
    hide Parse, Atoofft, FieldOf, SaysClose, SaysChunked, IsRedirect;
  }

  lemma PlainSizeLine(j: Job, buf: string)
    requires j.phase.GetChunkHead? && PlainTurn(j, buf)
    ensures !ChunkHeadTurn(j, buf).fragile
  {
    var b := DropNewlines(buf);
    assert b == "" ==> StrStrCrlf(b).None?;
    hide ScanHex, DropNewlines, StrStrCrlf, Parse;
    if StrStrCrlf(b).Some? {
      F.LineInBuffer(b);
      DigitNotBlank(b, StrStrCrlf(b).value);
    }
  }

  lemma DigitNotBlank(b: string, k: nat)
    requires k + 2 <= |b| && b[k..k + 2] == CRLF && IsHexDigit(b[0])
    ensures !Blank(b[..k])
  {
    assert b[k] == b[k..k + 2][0];
    if k > 0 { assert b[..k][0] == b[0]; }
  }

  lemma {:induction false} PlainRunHolds(j: Job, buf: string)
    requires PlainRun(j, buf)
    ensures !Process(j, buf, false).fragile
    decreases |buf|, Rank(j.phase)
  {
    var t := Step(j, buf, false);
    assert !t.fragile by {
      hide HeaderTurn, ChunkHeadTurn, PlainTurn;
      match j.phase {
        case GetHeader => PlainHead(j, buf);
        case GetChunkHead => PlainSizeLine(j, buf);
        case _ =>
      }
    }
    hide Step, PlainTurn;
    if t.Go? { PlainRunHolds(t.job, t.buf); }
  }

  lemma {:induction false} PlainSessionHolds(s: Session)
    requires PlainSession(s)
    ensures !Pump(s).1
    decreases |s.queue|
  {
    hide Process, PlainRun;
    if s.buf != "" && s.queue != [] && s.halted == {} {
      PlainRunHolds(s.queue[0], s.buf);
      var t := Process(s.queue[0], s.buf, false);
      if Done in t.flags { PlainSessionHolds(Session(s.queue[1..], s.finished + [t.job], t.buf, {})); }
    }
  }

  /** A stream in which the decoder meets no interim answer, no redirection to follow and no size
      line that starts with anything but a digit may be cut in any way. */
  lemma PlainStreams(s: Session, bytes: string)
    requires s.buf == "" && PlainSession(More(s, bytes))
    ensures G.CutsDoNotMatter(s, bytes)
  {
    hide Pump, PlainSession;
    PlainSessionHolds(More(s, bytes));
    G.IndependentIffNotFragile(s, bytes);
  }
}
