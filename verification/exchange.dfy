/** Between the loop and the decoders: what ExchangeData does with the bytes of a connection is
    an exchange as the loop expects it, and each job decodes the answer to its own request. */
module Exchanging {
  import opened Text
  import opened HeaderParser
  import opened Decoder
  import opened Agent
  import opened Pipelining
  import W = Wire

  lemma {:induction false} PumpEnds(s: Session)
    requires s.halted == {}
    ensures var r := Pump(s).0;
      && |r.finished| + |r.queue| == |s.finished| + |s.queue| && |s.finished| <= |r.finished|
      && FromDecoder(r.halted) && Done !in r.halted && (r.halted != {} ==> r.queue != [])
    decreases |s.queue|
  {
    hide Process;
    if s.buf != "" && s.queue != [] {
      var t := Process(s.queue[0], s.buf, false);
      DecoderFlags(s.queue[0], s.buf, false);
      if Done in t.flags { PumpEnds(Session(s.queue[1..], s.finished + [t.job], t.buf, {})); }
    }
  }

  /** The jobs that stay in the pipeline, as redirections leave them: every one that is followed
      costs one of the few that are allowed. */
  predicate Redirected(before: seq<Task>, after: seq<Task>, flags: set<Flag>) {
    && |after| == |before|
    && (forall i :: 0 <= i < |after| ==>
          var t, u := after[i], before[i];
          t.id == u.id && t.redirs <= u.redirs && t.volatile == u.volatile && (TgtChange !in flags ==> t == u.(redirs := t.redirs)))
    && (TgtChange in flags ==> after != [] && after[0].redirs < before[0].redirs)
  }

  /** What the loop is told about the bytes at hand. */
  function Told(js: seq<Job>, buf: string, pipe: seq<Task>): Exchange {
    var (t, mixed) := DataLoop(Session(js, [], buf, {}));
    Exchange(|t.finished|, pipe, HandUp(t.halted, |t.queue|, mixed, t.buf == ""), mixed)
  }

  /** Whatever the bytes are and whatever state the decoders are in: ExchangeData returns what
      the loop relies on, and a job counts as finished exactly if its decoder has finished. */
  lemma DataLoopReturns(s: State, js: seq<Job>, buf: string, pipe: seq<Task>)
    requires s.con.Some? && |js| == |s.active| > 0
    requires var e := Told(js, buf, pipe); e.finished <= |s.active| ==> Redirected(s.active[e.finished..], pipe, e.flags)
    ensures Returns(s, Told(js, buf, pipe))
    ensures Told(js, buf, pipe).finished == |Pump(Session(js, [], buf, {})).0.finished|
  {
    hide Pump, Probe;
    PumpEnds(Session(js, [], buf, {}));
    var e := Told(js, buf, pipe);
    var (t, mixed) := DataLoop(Session(js, [], buf, {}));
    assert |t.queue| + |t.finished| == |js|;
    HandUpReturns(t.halted, |t.queue|, mixed, t.buf == "");
  }

  /** The server's answers to the requests that are out, in the order in which they were sent. */
  ghost function Replies(s: State, answer: nat -> W.Reply): (r: seq<W.Reply>)
    ensures |r| == |s.wire| && forall i :: 0 <= i < |r| ==> r[i] == answer(s.wire[i])
  {
    seq(|s.wire|, i requires 0 <= i < |s.wire| => answer(s.wire[i]))
  }

  /** For every server that answers in order, and however much has arrived in whatever pieces: a
      job that is finished has the answer to the request sent when it stood in its place. In step,
      that is its own request. */
  lemma OwnAnswers(s: State, js: seq<Job>, answer: nat -> W.Reply, pieces: seq<string>)
    requires |js| == |s.active| && W.AllTake(js, Replies(s, answer))
    requires pieces != [] && Concat(pieces) <= W.Stream(Replies(s, answer))
    ensures var t := FeedAll(W.Waiting(js), pieces);
      && |t.finished| == W.Arrived(Replies(s, answer), |Concat(pieces)|)
      && (forall i :: 0 <= i < |t.finished| ==> t.finished[i] == W.Served(js[i], answer(s.wire[i])))
      && (Matched(s) ==> forall i :: 0 <= i < |t.finished| ==> t.finished[i] == W.Served(js[i], answer(s.active[i].id)))
  {
    hide W.Takes, W.Complete, W.Served, W.Stream, W.Arrived, FeedAll, Concat, Ids;
    W.AnswersInOrder(js, Replies(s, answer), pieces);
    var t := FeedAll(W.Waiting(js), pieces);
    if Matched(s) {
      forall i | 0 <= i < |t.finished| ensures s.wire[i] == s.active[i].id {
        assert Ids(s.active)[i] == s.active[i].id;
      }
    }
  }

  // ---------------------------------------------------------------- an invalid head

  /** A decoder asks for the file before it to be given up exactly if a head is invalid. */
  lemma KillsIff(j: Job, buf: string, probe: bool)
    ensures var t := Step(j, buf, probe);
      t.Return? ==> (KillLastFile in t.flags <==> j.phase.GetHeader? && Parse(EMPTY_HEAD, buf).0 < 0)
  {
    hide ScanHex, StrStrCrlf, DropNewlines, Blank, SaysClose, SaysChunked, Atoofft, FieldOf;
    LoadLength(EMPTY_HEAD, buf);
    NoHeadNoError();
    hide Parse;
  }

  lemma NoHeadNoError()
    ensures Parse(EMPTY_HEAD, "").0 == 0
  {
  }

  /** Two requests are out; a whole answer to the first is followed by something that is no head:
      the first job is finished, and then its file is given up. */
  lemma InvalidNext(js: seq<Job>, a: W.Reply, junk: string)
    requires |js| >= 2 && W.Complete(a) && W.Takes(js[0], a)
    requires js[1].phase.GetHeader? && Parse(EMPTY_HEAD, junk).0 < 0
    ensures Pump(Session(js, [], W.Bytes(a) + junk, {})).0 ==
      Session(js[1..], [W.Served(js[0], a)], junk, {MirrorBroken, ReconnectNow, KillLastFile})
  {
    hide W.Complete, W.Takes, W.Served, W.Bytes, Parse, Process;
    W.OneReply(js[0], a, junk);
    BadHead(js[1], junk);
    var s1 := Session(js[1..], [W.Served(js[0], a)], junk, {});
    assert [] + [W.Served(js[0], a)] == [W.Served(js[0], a)];
    assert Pump(Session(js, [], W.Bytes(a) + junk, {})).0 == Pump(s1).0;
    assert js[1..][0 := js[1]] == js[1..] && s1.queue[0] == js[1];
  }

  lemma BadHead(j: Job, junk: string)
    requires j.phase.GetHeader? && Parse(EMPTY_HEAD, junk).0 < 0
    ensures junk != "" && Process(j, junk, false) == Return(j, junk, {MirrorBroken, ReconnectNow, KillLastFile}, false)
  {
    NoHeadNoError();
    hide Parse;
    assert Step(j, junk, false) == Return(j, junk, {MirrorBroken, ReconnectNow, KillLastFile}, false);
    hide Step;
  }

  /** Nine bytes that begin neither an answer nor a request are such a thing. */
  lemma NoHead(s: string)
    requires |s| >= 9 && s[0] !in {'H', 'G', 'P', 'C'}
    ensures Parse(EMPTY_HEAD, s).0 < 0
  {
    hide Body, Started;
  }
}
