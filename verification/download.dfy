/** From the wire to the disk: what the decoder of an answer does to the cache item, event by event. */
module Downloading {
  import opened Text
  import opened HeaderParser
  import opened RemoteStatus
  import opened Decoder
  import opened Wire
  import F = Fragments
  import C = Chunks

  /** A call into the cache item: about a head, with data to store, at the end. */
  datatype Op = Ask(h: HeadData) | Data(chunk: string) | Finish

  /** The head the item is asked about, if it comes to that. */
  function Consulted(j: Job, buf: string): Option<HeadData> {
    var (n, h) := Parse(EMPTY_HEAD, buf);
    var skips := h.code < 200 || (j.rules.followRedirects && IsRedirect(h.code)) || (h.code >= 400 && j.rules.keyFile);
    if n <= 0 || !h.kind.Answer? || skips then None
    else if j.rules.headOnly then Some(h)
    else if SaysChunked(h) then Some(h.(fields := h.fields - {TransferEncoding}))
    else if Atoofft(FieldOf(h, ContentLength), -1) < 0 then None
    else Some(h)
  }

  /** The calls of one turn, and of one call of the decoder. */
  function StepOps(j: Job, buf: string): seq<Op> {
    match j.phase
    case GetHeader => var h := Consulted(j, buf); if h.Some? then [Ask(h.value)] else []
    case ProcessData => DataOps(j, buf)
    case ProcessChunkData => DataOps(j, buf)
    case FinishJob => [Finish]
    case _ => []
  }

  function DataOps(j: Job, buf: string): seq<Op> {
    var n := if |buf| < j.rest then |buf| else j.rest;
    if n > 0 && j.allow then [Data(buf[..n])] else []
  }

  function Ops(j: Job, buf: string): seq<Op>
    decreases |buf|, Rank(j.phase)
  {
    var t := Step(j, buf, false);
    StepOps(j, buf) + if t.Go? then Ops(t.job, t.buf) else []
  }

  /** The calls while a stream comes in piece by piece, up to the end of the answer or an error. */
  function AllOps(j: Job, buf: string, pieces: seq<string>): seq<Op>
    decreases |pieces|
  {
    if pieces == [] then []
    else
      var t := Process(j, buf + pieces[0], false);
      Ops(j, buf + pieces[0]) + if t.flags == {} then AllOps(t.job, t.buf, pieces[1..]) else []
  }

  /** The bytes handed over for storing. */
  function Handed(ops: seq<Op>): string {
    if ops == [] then "" else (if ops[0].Data? then ops[0].chunk else "") + Handed(ops[1..])
  }

  lemma {:induction false} HandedSum(a: seq<Op>, b: seq<Op>)
    ensures Handed(a + b) == Handed(a) + Handed(b)
    decreases |a|
  {
    if a == [] {
      assert a + b == b;
    } else {
      HandedSum(a[1..], b);
      assert (a + b)[1..] == a[1..] + b;
      C.Assoc(if a[0].Data? then a[0].chunk else "", Handed(a[1..]), Handed(b));
    }
  }

  /** The middle of an answer: data, none of it empty, and at most one end. */
  predicate Middle(ops: seq<Op>, ends: bool)
    decreases |ops|
  {
    if ops == [] then !ends
    else if ops[0].Data? then ops[0].chunk != "" && Middle(ops[1..], ends)
    else ends && ops == [Finish]
  }

  lemma {:induction false} MiddleSum(a: seq<Op>, b: seq<Op>, ends: bool)
    requires Middle(a, false) && Middle(b, ends)
    ensures Middle(a + b, ends)
    decreases |a|
  {
    if a == [] {
      assert a + b == b;
    } else {
      MiddleSum(a[1..], b, ends);
      assert (a + b)[1..] == a[1..] + b;
    }
  }

  // ---------------------------------------------------------------- one call of the decoder

  /** One turn stores what it hands over. */
  lemma StepStores(j: Job, buf: string)
    ensures Step(j, buf, false).job.stored == j.stored + Handed(StepOps(j, buf))
  {
    hide Parse, ScanHex, StrStrCrlf, DropNewlines, SaysClose, SaysChunked, Atoofft, FieldOf, IsRedirect, Consulted;
    var ops := StepOps(j, buf);
    assert j.stored + "" == j.stored;
    if ops != [] { assert ops[1..] == [] && Handed(ops) == (if ops[0].Data? then ops[0].chunk else "") + ""; }
  }

  /** Behind the head, one turn hands over data or the end, and does not go back to waiting for a head. */
  lemma StepMiddle(j: Job, buf: string)
    requires !j.phase.GetHeader?
    ensures var t := Step(j, buf, false);
      && Middle(StepOps(j, buf), t.Return? && Done in t.flags)
      && (t.Go? || t.flags == {} ==> !t.job.phase.GetHeader?)
  {
    hide Parse, ScanHex, StrStrCrlf, DropNewlines, Consulted, Handed;
    var ops := StepOps(j, buf);
    if ops != [] { assert ops[1..] == []; }
  }

  lemma {:induction false} OpsStore(j: Job, buf: string)
    ensures Process(j, buf, false).job.stored == j.stored + Handed(Ops(j, buf))
    ensures !j.phase.GetHeader? ==>
      var t := Process(j, buf, false);
      Middle(Ops(j, buf), Done in t.flags) && (t.flags == {} ==> !t.job.phase.GetHeader?)
    decreases |buf|, Rank(j.phase)
  {
    StepStores(j, buf);
    if !j.phase.GetHeader? { StepMiddle(j, buf); }
    hide Step, StepOps, Middle;
    var t := Step(j, buf, false);
    var ops := StepOps(j, buf);
    if t.Go? {
      OpsStore(t.job, t.buf);
      HandedSum(ops, Ops(t.job, t.buf));
      C.Assoc(j.stored, Handed(ops), Handed(Ops(t.job, t.buf)));
      if !j.phase.GetHeader? { MiddleSum(ops, Ops(t.job, t.buf), Done in Process(j, buf, false).flags); }
    } else {
      assert ops + [] == ops;
    }
  }

  // ---------------------------------------------------------------- a whole answer, in pieces

  /** With the rest of the answer behind the bytes at hand, the job is finished, and nothing is left. */
  ghost predicate Completes(j: Job, buf: string, rest: string, end: Job) {
    Process(j, buf + rest, false) == Return(end, "", {Done}, false)
  }

  /** One more piece: the answer is whole with it, or the decoder waits for what is still to come. */
  lemma OnePiece(j: Job, buf: string, piece: string, more: string, end: Job)
    requires Completes(j, buf, piece + more, end)
    ensures var t := Process(j, buf + piece, false);
      if more == "" then t == Return(end, "", {Done}, false) else t.flags == {} && Completes(t.job, t.buf, more, end)
  {
    hide Process;
    C.Assoc(buf, piece, more);
    if more == "" {
      assert piece + more == piece;
    } else {
      F.ProcessSplit(j, buf + piece, more, false);
      assert |Process(j, buf + piece, false).buf + more| > 0;
    }
  }

  /** Behind the head: what is handed over is data, in its order, and the end comes with the last byte. */
  lemma {:induction false} MiddleOps(j: Job, buf: string, rest: string, end: Job, pieces: seq<string>)
    requires !j.phase.GetHeader? && Completes(j, buf, rest, end) && Concat(pieces) <= rest && (pieces == [] ==> rest != "")
    ensures var ops := AllOps(j, buf, pieces);
      && Middle(ops, Concat(pieces) == rest) && j.stored + Handed(ops) <= end.stored
      && (Concat(pieces) == rest ==> j.stored + Handed(ops) == end.stored)
    decreases |pieces|
  {
    hide Process, Ops, Completes;
    if pieces == [] {
      assert j.stored + "" == j.stored;
      StoresPart(j, buf, rest, end);
    } else {
      var p, more := pieces[0], rest[|pieces[0]|..];
      PartOf(p, Concat(pieces[1..]), rest);
      OnePiece(j, buf, p, more, end);
      OpsStore(j, buf + p);
      var t := Process(j, buf + p, false);
      var ops := Ops(j, buf + p);
      if more == "" {
        assert ops + [] == ops;
      } else {
        MiddleOps(t.job, t.buf, more, end, pieces[1..]);
        var later := AllOps(t.job, t.buf, pieces[1..]);
        MiddleSum(ops, later, Concat(pieces) == rest);
        HandedSum(ops, later);
        C.Assoc(j.stored, Handed(ops), Handed(later));
      }
    }
  }

  lemma PartOf(p: string, q: string, rest: string)
    requires p + q <= rest
    ensures |p| <= |rest| && rest == p + rest[|p|..] && q <= rest[|p|..] && (p + q == rest <==> q == rest[|p|..])
  {
    assert rest[..|p|] == (p + q)[..|p|] == p;
    assert rest[|p|..][..|q|] == (p + q)[|p|..];
  }

  lemma StoresPart(j: Job, buf: string, rest: string, end: Job)
    requires Completes(j, buf, rest, end)
    ensures j.stored <= end.stored
  {
    hide Process;
    OpsStore(j, buf + rest);
  }

  /** The job once its head was taken. */
  function Headed(j: Job, a: Reply): Job
    requires Takes(j, a)
  {
    j.(phase := if a.body.Chunked? then GetChunkHead else ProcessData,
       rest := if a.body.Chunked? then 0 else |a.body.text|, allow := Served(j, a).allow)
  }

  /** A job that waits for its head waits until it is whole, and then asks about it. */
  lemma HeadOps(j: Job, a: Reply, part: string)
    requires Complete(a) && Takes(j, a) && part <= Bytes(a)
    ensures
      if |part| < |HeadText(a)| then Process(j, part, false) == Return(j, part, {}, false) && Ops(j, part) == []
      else
        var w := part[|HeadText(a)|..];
        && w <= BodyBytes(a.body) && Process(j, part, false) == Process(Headed(j, a), w, false)
        && Ops(j, part) == [Ask(Shown(a))] + Ops(Headed(j, a), w)
  {
    if |part| < |HeadText(a)| { HeadWaits(j, a, part); } else { HeadComes(j, a, part); }
  }

  lemma WholeHead(a: Reply, w: string)
    requires Complete(a)
    ensures Parse(EMPTY_HEAD, HeadText(a) + w) == (|HeadText(a)|, HeadOf(a)) && HeadText(a) != ""
  {
    hide PrintAnswer, Collect, PrintableMsg, Printable, Parse, Announced;
    ParseOfPrinted(EMPTY_HEAD, a.proto, a.code, a.msg, a.fields);
    NotEmpty(a);
    LoadStable(EMPTY_HEAD, HeadText(a), w);
  }

  lemma HeadWaits(j: Job, a: Reply, part: string)
    requires Complete(a) && Takes(j, a) && part <= Bytes(a) && |part| < |HeadText(a)|
    ensures Process(j, part, false) == Return(j, part, {}, false) && Ops(j, part) == []
  {
    hide HeadText, BodyBytes, Complete, Parse, AnswerTurn;
    WholeHead(a, BodyBytes(a.body));
    LoadLength(EMPTY_HEAD, part);
    if Parse(EMPTY_HEAD, part).0 != 0 { LoadStable(EMPTY_HEAD, part, Bytes(a)[|part|..]); }
    assert part + Bytes(a)[|part|..] == Bytes(a);
    assert Parse(EMPTY_HEAD, part).0 == 0;
    assert Step(j, part, false) == Return(j, part, {}, false);
    hide Step;
  }

  lemma HeadComes(j: Job, a: Reply, part: string)
    requires Complete(a) && Takes(j, a) && part <= Bytes(a) && |part| >= |HeadText(a)|
    ensures var w := part[|HeadText(a)|..];
      && w <= BodyBytes(a.body) && Process(j, part, false) == Process(Headed(j, a), w, false)
      && Ops(j, part) == [Ask(Shown(a))] + Ops(Headed(j, a), w)
  {
    hide HeadText, BodyBytes, Complete, Parse, Step;
    var head := HeadText(a);
    var w := part[|head|..];
    assert part == head + w by { assert part[..|head|] == (head + BodyBytes(a.body))[..|head|] == head; }
    assert w <= BodyBytes(a.body) by { assert w == (head + BodyBytes(a.body))[|head|..][..|w|]; }
    WholeHead(a, w);
    Accepted(j, a, w);
    assert StepOps(j, part) == [Ask(Shown(a))] by { AsksAbout(j, a, part); }
    hide StepOps, Takes, Served;
  }

  lemma AsksAbout(j: Job, a: Reply, part: string)
    requires Complete(a) && Takes(j, a) && Parse(EMPTY_HEAD, part) == (|HeadText(a)|, HeadOf(a)) && HeadText(a) != ""
    ensures StepOps(j, part) == [Ask(Shown(a))]
  {
    hide HeadText, Parse, PrintableMsg, Printable, SaysChunked, Atoofft, IsRedirect, Collect;
  }

  /** The calls of a whole answer, or of the part of one that has come: the question about its head,
      the data of its body if that may be stored, and the end. */
  ghost predicate Answered(a: Reply, allow: bool, ops: seq<Op>, whole: bool) {
    var kept := if allow then BodyText(a.body) else "";
    if ops == [] then !whole
    else
      && ops[0] == Ask(Shown(a)) && Middle(ops[1..], whole)
      && Handed(ops[1..]) <= kept && (whole ==> Handed(ops[1..]) == kept)
  }

  lemma {:induction false} AnswerOps(j: Job, a: Reply, buf: string, pieces: seq<string>)
    requires Complete(a) && Takes(j, a) && buf + Concat(pieces) <= Bytes(a) && |buf| < |HeadText(a)|
    ensures Answered(a, Served(j, a).allow, AllOps(j, buf, pieces), buf + Concat(pieces) == Bytes(a))
    decreases |pieces|
  {
    hide Process, Ops, HeadText, Complete, Takes, BodyBytes;
    if pieces == [] {
      assert buf + "" == buf && |buf| < |Bytes(a)|;
    } else {
      var part, later := buf + pieces[0], pieces[1..];
      C.Assoc(buf, pieces[0], Concat(later));
      assert part <= Bytes(a) by { PartOf(part, Concat(later), Bytes(a)); }
      HeadOps(j, a, part);
      if |part| < |HeadText(a)| {
        AnswerOps(j, a, part, later);
        assert [] + AllOps(j, part, later) == AllOps(j, part, later);
      } else {
        BodyOps(j, a, part, later);
        assert AllOps(j, buf, pieces) == [Ask(Shown(a))] + AllOps(Headed(j, a), "", [part[|HeadText(a)|..]] + later) by {
          SameOps(j, a, buf, pieces);
        }
      }
    }
  }

  lemma SameOps(j: Job, a: Reply, buf: string, pieces: seq<string>)
    requires Takes(j, a) && pieces != [] && |HeadText(a)| <= |buf + pieces[0]|
    requires var part := buf + pieces[0]; var w := part[|HeadText(a)|..];
      Process(j, part, false) == Process(Headed(j, a), w, false) && Ops(j, part) == [Ask(Shown(a))] + Ops(Headed(j, a), w)
    ensures AllOps(j, buf, pieces) == [Ask(Shown(a))] + AllOps(Headed(j, a), "", [(buf + pieces[0])[|HeadText(a)|..]] + pieces[1..])
  {
    hide Process, Ops, AllOps, HeadText, Takes, Served;
    var part, later := buf + pieces[0], pieces[1..];
    var w, ask := part[|HeadText(a)|..], [Ask(Shown(a))];
    FirstOps(j, buf, pieces[0], later);
    assert [pieces[0]] + later == pieces;
    FirstOps(Headed(j, a), "", w, later);
    assert "" + w == w;
    var t := Process(j, part, false);
    AskFirst(ask, Ops(Headed(j, a), w), if t.flags == {} then AllOps(t.job, t.buf, later) else []);
  }

  lemma FirstOps(j: Job, buf: string, piece: string, later: seq<string>)
    ensures var t := Process(j, buf + piece, false);
      AllOps(j, buf, [piece] + later) == Ops(j, buf + piece) + if t.flags == {} then AllOps(t.job, t.buf, later) else []
  {
    hide Process, Ops;
    assert ([piece] + later)[1..] == later;
  }

  lemma AskFirst(a: seq<Op>, b: seq<Op>, c: seq<Op>)
    ensures a + b + c == a + (b + c)
  {
  }

  lemma BodyOps(j: Job, a: Reply, part: string, later: seq<string>)
    requires Complete(a) && Takes(j, a) && part + Concat(later) <= Bytes(a) && |HeadText(a)| <= |part|
    ensures var j1 := Headed(j, a);
      var ops := AllOps(j1, "", [part[|HeadText(a)|..]] + later);
      Answered(a, Served(j, a).allow, [Ask(Shown(a))] + ops, part + Concat(later) == Bytes(a))
  {
    hide Process, Ops, AllOps, HeadText, Complete, Takes, BodyBytes, Concat;
    var head, body, j1, end := HeadText(a), BodyBytes(a.body), Headed(j, a), Served(j, a);
    var w := part[|head|..];
    var ps := [w] + later;
    assert Concat(ps) == w + Concat(later) by { ConcatFirst(w, later); }
    assert part + Concat(later) == head + (w + Concat(later)) && w + Concat(later) <= body by { Behind(part, Concat(later), head, body); }
    assert "" + body == body && head + body == Bytes(a) && Bytes(a) + "" == Bytes(a);
    OneReply(j, a, "");
    HeadOps(j, a, Bytes(a));
    assert Bytes(a)[|head|..] == body;
    assert Completes(j1, "", body, end);
    MiddleOps(j1, "", body, end, ps);
    var ops := AllOps(j1, "", ps);
    assert ([Ask(Shown(a))] + ops)[1..] == ops;
    PrefixBehind(j.stored, Handed(ops), if end.allow then BodyText(a.body) else "", end.stored);
  }

  lemma ConcatFirst(w: string, later: seq<string>)
    ensures Concat([w] + later) == w + Concat(later)
  {
    assert ([w] + later)[1..] == later;
  }

  lemma Behind(part: string, more: string, head: string, body: string)
    requires part + more <= head + body && |head| <= |part|
    ensures part + more == head + (part[|head|..] + more) && part[|head|..] + more <= body
  {
    var x := part + more;
    assert x[..|head|] == (head + body)[..|head|] == head;
    assert x[|head|..] == part[|head|..] + more;
    assert x[|head|..] == (head + body)[|head|..][..|x| - |head|];
  }

  lemma PrefixBehind(s: string, a: string, b: string, end: string)
    requires s + a <= end && (end == s + b || (b == "" && end == s))
    ensures a <= b && (s + a == end ==> a == b)
  {
    assert (s + a)[|s|..] == a;
    if end == s + b { assert end[|s|..] == b && a == end[|s|..][..|a|]; }
  }
}
