/** Several answers on one connection: a stream of complete answers is taken apart into the jobs
    that asked for them, each into its own, however it is cut. */
module Wire {
  import opened Text
  import opened HeaderParser
  import opened RemoteStatus
  import opened Decoder
  import C = Chunks
  import F = Fragments

  datatype Body = Sized(text: string) | Chunked(pieces: seq<string>)

  /** What a server sends for one request. */
  datatype Reply = Reply(proto: char, code: nat, msg: string, fields: seq<(string, string)>, body: Body)

  function BodyText(b: Body): string {
    match b case Sized(text) => text case Chunked(pieces) => Concat(pieces)
  }

  function BodyBytes(b: Body): string {
    match b case Sized(text) => text case Chunked(pieces) => C.Encode(pieces) + C.LAST_CHUNK
  }

  function HeadText(a: Reply): string { PrintAnswer(a.proto, a.code, a.msg, a.fields) }
  function HeadOf(a: Reply): HeadData { HeadData(Answer, a.proto, a.code, a.msg, Collect(a.fields, map[])) }
  function Bytes(a: Reply): string { HeadText(a) + BodyBytes(a.body) }

  function Stream(replies: seq<Reply>): string {
    if replies == [] then "" else Bytes(replies[0]) + Stream(replies[1..])
  }

  /** The head announces the body that follows it. */
  predicate Announced(a: Reply) {
    match a.body
    case Sized(text) => !SaysChunked(HeadOf(a)) && Atoofft(FieldOf(HeadOf(a), ContentLength), -1) == |text|
    case Chunked(pieces) => SaysChunked(HeadOf(a)) && forall p :: p in pieces ==> 0 < |p| < 0x1_0000_0000
  }

  /** A well-formed final answer. */
  predicate Complete(a: Reply) {
    200 <= a.code < 0x8000_0000 && PrintableMsg(a.msg) && (forall f :: f in a.fields ==> Printable(f)) && Announced(a)
  }

  /** The head as the cache item is shown it. */
  function Shown(a: Reply): HeadData {
    if a.body.Chunked? then HeadOf(a).(fields := HeadOf(a).fields - {TransferEncoding}) else HeadOf(a)
  }

  /** A job that waits for its answer, and whose item goes along with this one. */
  predicate Takes(j: Job, a: Reply) {
    && j.phase.GetHeader? && j.rest == 0 && !j.rules.headOnly
    && !(j.rules.followRedirects && IsRedirect(a.code)) && !(a.code >= 400 && j.rules.keyFile)
    && j.rules.judge(Shown(a)).Good?
  }

  /** The job behind its answer: the body is stored, if the item allows it. */
  function Served(j: Job, a: Reply): Job
    requires Takes(j, a)
  {
    var allow := j.rules.judge(Shown(a)).allow;
    j.(allow := allow, stored := if allow then j.stored + BodyText(a.body) else j.stored)
  }

  // ---------------------------------------------------------------- one answer

  lemma HeadTaken(j: Job, a: Reply, w: string)
    requires Complete(a) && Takes(j, a)
    ensures HeadText(a) != ""
    ensures Step(j, HeadText(a) + w, false) == AnswerTurn(j, HeadText(a) + w, HeadOf(a), |HeadText(a)|, false)
  {
    hide PrintAnswer, Collect, PrintableMsg, Printable, Parse, AnswerTurn, Announced;
    var head := HeadText(a);
    ParseOfPrinted(EMPTY_HEAD, a.proto, a.code, a.msg, a.fields);
    NotEmpty(a);
    LoadStable(EMPTY_HEAD, head, w);
  }

  lemma NotEmpty(a: Reply)
    ensures HeadText(a) != ""
  {
    hide PrintFields, Dec;
  }

  lemma Accepted(j: Job, a: Reply, w: string)
    requires Complete(a) && Takes(j, a)
    ensures Step(j, HeadText(a) + w, false) ==
      Go(j.(phase := if a.body.Chunked? then GetChunkHead else ProcessData,
            rest := if a.body.Chunked? then 0 else |a.body.text|, allow := Served(j, a).allow), w, false)
  {
    HeadTaken(j, a, w);
    hide HeadText, HeadOf, Atoofft, SaysChunked, SaysClose, PrintableMsg, Printable, Parse, FieldOf, IsRedirect;
    var head := HeadText(a);
    assert (head + w)[|head|..] == w;
  }

  lemma SizedBody(j: Job, text: string, tail: string)
    requires j.phase.ProcessData? && j.rest == |text|
    ensures Process(j, text + tail, false) ==
      Return(j.(phase := GetHeader, rest := 0, stored := C.Kept(j, text)), tail, {Done}, false)
  {
    assert (text + tail)[..|text|] == text && (text + tail)[|text|..] == tail;
    var j1 := j.(phase := FinishJob, rest := 0, stored := C.Kept(j, text));
    assert Step(j, text + tail, false) == Go(j1, tail, false);
    C.FinishStep(j1, tail);
    hide Step;
  }

  /** One call of the decoder takes one whole answer off the stream, and no byte more. */
  lemma OneReply(j: Job, a: Reply, tail: string)
    requires Complete(a) && Takes(j, a)
    ensures Process(j, Bytes(a) + tail, false) == Return(Served(j, a), tail, {Done}, false)
    ensures Bytes(a) != ""
  {
    hide HeadText, HeadOf, PrintableMsg, Printable, C.Encode;
    var w := BodyBytes(a.body) + tail;
    C.Assoc(HeadText(a), BodyBytes(a.body), tail);
    Accepted(j, a, w);
    HeadTaken(j, a, w);
    var j1 := Step(j, HeadText(a) + w, false).job;
    match a.body {
      case Sized(text) => SizedBody(j1, text, tail);
      case Chunked(pieces) =>
        C.Assoc(C.Encode(pieces), C.LAST_CHUNK, tail);
        C.DecodeEncoded(j1, "", pieces, tail);
        assert "" + w == w;
    }
    hide Step;
  }

  // ---------------------------------------------------------------- the connection

  /** The jobs at the front take the answers, one each. */
  ghost predicate AllTake(js: seq<Job>, replies: seq<Reply>) {
    |replies| <= |js| && forall i :: 0 <= i < |replies| ==> Complete(replies[i]) && Takes(js[i], replies[i])
  }

  ghost function AllServed(js: seq<Job>, replies: seq<Reply>): (r: seq<Job>)
    requires AllTake(js, replies)
    ensures |r| == |replies| && forall i :: 0 <= i < |r| ==> r[i] == Served(js[i], replies[i])
  {
    seq(|replies|, i requires 0 <= i < |replies| => Served(js[i], replies[i]))
  }

  lemma {:induction false} AllAtOnce(js: seq<Job>, done: seq<Job>, replies: seq<Reply>)
    requires AllTake(js, replies)
    ensures Pump(Session(js, done, Stream(replies), {})) ==
      (Session(js[|replies|..], done + AllServed(js, replies), "", {}), false)
    decreases |replies|
  {
    hide Process, Complete, Takes, Served, Bytes;
    if replies == [] {
      assert done + AllServed(js, replies) == done;
    } else {
      var rest := replies[1..];
      OneReply(js[0], replies[0], Stream(rest));
      assert AllTake(js[1..], rest) by {
        assert forall i :: 0 <= i < |rest| ==> rest[i] == replies[i + 1] && js[1..][i] == js[i + 1];
      }
      AllAtOnce(js[1..], done + [Served(js[0], replies[0])], rest);
      assert done + AllServed(js, replies) == done + [Served(js[0], replies[0])] + AllServed(js[1..], rest);
      assert js[1..][|rest|..] == js[|replies|..];
    }
  }

  /** How many of the answers are there as a whole in the first `n` bytes of their stream. */
  function Arrived(replies: seq<Reply>, n: nat): (k: nat)
    ensures k <= |replies|
  {
    if replies == [] || n < |Bytes(replies[0])| then 0 else 1 + Arrived(replies[1..], n - |Bytes(replies[0])|)
  }

  /** A job is not finished before the last byte of its answer. */
  lemma NotEarlier(j: Job, a: Reply, part: string)
    requires Complete(a) && Takes(j, a) && part < Bytes(a)
    ensures Process(j, part, false).flags == {}
  {
    hide Process, Complete, Takes, Served, Bytes;
    var rest := Bytes(a)[|part|..];
    OneReply(j, a, "");
    assert Bytes(a) + "" == Bytes(a) == part + rest;
    F.ProcessSplit(j, part, rest, false);
    assert |Process(j, part, false).buf + rest| > 0;
  }

  lemma {:induction false} FinishedExactly(js: seq<Job>, done: seq<Job>, replies: seq<Reply>, part: string)
    requires AllTake(js, replies) && part <= Stream(replies)
    ensures var k := Arrived(replies, |part|);
      Pump(Session(js, done, part, {})).0.finished == done + AllServed(js, replies)[..k]
    decreases |replies|
  {
    hide Process, Complete, Takes, Served, Bytes;
    if replies == [] {
      assert done + AllServed(js, replies)[..0] == done;
    } else {
      var first, rest := Bytes(replies[0]), replies[1..];
      OneReply(js[0], replies[0], "");
      if |part| < |first| {
        assert part == (first + Stream(rest))[..|part|] == first[..|part|];
        NotEarlier(js[0], replies[0], part);
        assert done + AllServed(js, replies)[..0] == done;
      } else {
        var more := part[|first|..];
        assert part == first + more by { assert part[..|first|] == (first + Stream(rest))[..|first|] == first; }
        assert more <= Stream(rest);
        OneReply(js[0], replies[0], more);
        assert AllTake(js[1..], rest) by {
          assert forall i :: 0 <= i < |rest| ==> rest[i] == replies[i + 1] && js[1..][i] == js[i + 1];
        }
        FinishedExactly(js[1..], done + [Served(js[0], replies[0])], rest, more);
        var k := Arrived(rest, |more|);
        assert AllServed(js, replies)[..k + 1] == [Served(js[0], replies[0])] + AllServed(js[1..], rest)[..k];
        assert done + AllServed(js, replies)[..k + 1] == done + [Served(js[0], replies[0])] + AllServed(js[1..], rest)[..k];
      }
    }
  }

  function Waiting(js: seq<Job>): Session { Session(js, [], "", {}) }

  /** For every list of well-formed answers, every way the stream is cut, and every point up to which
      it has arrived: as many jobs are finished as answers have arrived as a whole, and the i-th of
      them, the one whose request was the i-th, has stored the body of the i-th answer. */
  lemma AnswersInOrder(js: seq<Job>, replies: seq<Reply>, pieces: seq<string>)
    requires AllTake(js, replies) && pieces != [] && Concat(pieces) <= Stream(replies)
    ensures var t := FeedAll(Waiting(js), pieces);
      && t.finished == AllServed(js, replies)[..Arrived(replies, |Concat(pieces)|)]
      && (Concat(pieces) == Stream(replies) ==> t == Session(js[|replies|..], AllServed(js, replies), "", {}))
    ensures !Fragile(Waiting(js), Concat(pieces))
  {
    hide Pump, FeedAll, Served, Takes, Complete, Stream, Concat, Arrived;
    var a, b := Concat(pieces), Stream(replies)[|Concat(pieces)|..];
    var s := Waiting(js);
    assert Stream(replies) == a + b && "" + a == a;
    assert "" + (a + b) == a + b && More(s, a + b) == Session(js, [], Stream(replies), {});
    AllAtOnce(js, [], replies);
    FinishedExactly(js, [], replies, a);
    var all := AllServed(js, replies);
    assert [] + all == all && forall k :: 0 <= k <= |all| ==> [] + all[..k] == all[..k];
    assert More(More(s, a), b) == More(s, a + b) by { C.Assoc(s.buf, a, b); }
    F.PumpSplit(More(s, a), b);
    F.FragmentationIndependence(s, pieces);
    if b == "" { assert a + b == a; }
  }
}
