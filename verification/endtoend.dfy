/** Cache to cache: what a client job sends in chunked mode, cut anywhere on the way, is stored
    by the downloading side as exactly the item. */
module EndToEnd {
  import opened Text
  import opened HeaderParser
  import S = Sender
  import D = Decoder
  import C = Chunks
  import F = Fragments

  // ---------------------------------------------------------------- the head

  lemma {:induction false} ResolveMeans(key: string, i: nat)
    requires i <= |NAMES|
    ensures var r := ResolveFrom(key, i);
      r.Some? ==> exists n :: i <= n < |NAMES| && NAMES[n] == (r.value, LowerAll(key))
    decreases |NAMES| - i
  {
    hide LowerAll;
    if i < |NAMES| && LowerAll(key) != NAMES[i].1 { ResolveMeans(key, i + 1); }
  }

  lemma OnlyItsName(key: string)
    ensures Resolve(key) == Some(TransferEncoding) ==> LowerAll(key) == "transfer-encoding"
  {
    hide ResolveFrom, LowerAll;
    ResolveMeans(key, 0);
    if Resolve(key) == Some(TransferEncoding) {
      var n :| 0 <= n < |NAMES| && NAMES[n] == (TransferEncoding, LowerAll(key));
      OnlyOne(n);
    }
  }

  lemma OnlyLength(key: string)
    ensures Resolve(key) == Some(ContentLength) ==> LowerAll(key) == "content-length"
  {
    hide ResolveFrom, LowerAll;
    ResolveMeans(key, 0);
    if Resolve(key) == Some(ContentLength) {
      var n :| 0 <= n < |NAMES| && NAMES[n] == (ContentLength, LowerAll(key));
      OneLength(n);
    }
  }

  lemma OneLength(n: nat)
    requires n < |NAMES| && NAMES[n].0 == ContentLength
    ensures NAMES[n].1 == "content-length"
  {
    assert NAMES[1] == (ContentLength, "content-length");
    assert forall m :: 0 <= m < |NAMES| && m != 1 ==> NAMES[m].0 != ContentLength;
  }

  lemma OnlyOne(n: nat)
    requires n < |NAMES| && NAMES[n].0 == TransferEncoding
    ensures NAMES[n].1 == "transfer-encoding"
  {
    assert NAMES[8] == (TransferEncoding, "transfer-encoding");
    assert forall m :: 0 <= m < |NAMES| && m != 8 ==> NAMES[m].0 != TransferEncoding;
  }

  lemma LowerIs(key: string, name: string)
    requires |key| == |name| && forall i :: 0 <= i < |key| ==> Lower(key[i]) == name[i]
    ensures LowerAll(key) == name
  {
  }

  lemma TransferEncodingResolves()
    ensures Resolve("Transfer-Encoding") == Some(TransferEncoding)
    ensures LowerAll("chunked") == "chunked"
  {
    hide LowerAll, ResolveFrom;
    var k, t := "Transfer-Encoding", "transfer-encoding";
    assert forall i :: 1 <= i < 9 ==> Lower(k[i]) == t[i];
    assert forall i :: 9 <= i < 17 ==> Lower(k[i]) == t[i];
    LowerIs(k, t);
    LowerIs("chunked", "chunked");
    DistinctNames();
    ResolvesAt(k, 0, 8);
  }

  lemma ContentLengthResolves()
    ensures Resolve("Content-Length") == Some(ContentLength)
  {
    hide LowerAll, ResolveFrom;
    LengthName("Content-Length");
    assert NAMES[1] == (ContentLength, "content-length") && NAMES[0].1 == "connection";
    assert |NAMES[0].1| == 10 && |NAMES[1].1| == 14;
    ResolvesAt("Content-Length", 0, 1);
  }

  lemma LengthName(k: string)
    requires k == "Content-Length"
    ensures LowerAll(k) == "content-length"
  {
    var t := "content-length";
    assert forall i :: 1 <= i < 8 ==> Lower(k[i]) == t[i];
    assert forall i :: 9 <= i < 14 ==> Lower(k[i]) == t[i];
    hide LowerAll;
    LowerIs(k, t);
  }

  lemma DistinctNames()
    ensures NAMES[8] == (TransferEncoding, "transfer-encoding")
    ensures forall m :: 0 <= m < 8 ==> NAMES[m].1 != NAMES[8].1
  {
    assert NAMES[0].1[0] != 't' && NAMES[1].1[0] != 't' && NAMES[2].1[0] != 't' && NAMES[3].1[0] != 't';
    assert NAMES[4].1[0] != 't' && NAMES[5].1[0] != 't' && NAMES[6].1[0] != 't' && NAMES[7].1[0] != 't';
  }

  lemma {:induction false} ResolvesAt(key: string, i: nat, n: nat)
    requires i <= n < |NAMES| && LowerAll(key) == NAMES[n].1
    requires forall m :: i <= m < n ==> NAMES[m].1 != NAMES[n].1
    ensures ResolveFrom(key, i) == Some(NAMES[n].0)
    decreases n - i
  {
    hide LowerAll;
    if i < n { ResolvesAt(key, i + 1, n); }
  }

  lemma {:induction false} CollectKeeps(fs: seq<(string, string)>, known: map<Field, string>, f: Field, v: string)
    requires f in known && known[f] == v
    requires forall x :: x in fs && Resolve(x.0) == Some(f) ==> x.1 == v
    ensures f in Collect(fs, known) && Collect(fs, known)[f] == v
    decreases |fs|
  {
    hide Resolve;
    if fs != [] {
      assert fs[0] in fs;
      var r := Resolve(fs[0].0);
      CollectKeeps(fs[1..], if r.None? then known else known[r.value := fs[0].1], f, v);
    }
  }

  lemma {:induction false} CollectLacks(fs: seq<(string, string)>, known: map<Field, string>, f: Field)
    requires f !in known && forall x :: x in fs ==> Resolve(x.0) != Some(f)
    ensures f !in Collect(fs, known)
    decreases |fs|
  {
    hide Resolve;
    if fs != [] {
      assert fs[0] in fs;
      var r := Resolve(fs[0].0);
      CollectLacks(fs[1..], if r.None? then known else known[r.value := fs[0].1], f);
    }
  }

  lemma {:induction false} CollectAppend(a: seq<(string, string)>, b: seq<(string, string)>, known: map<Field, string>)
    ensures Collect(a + b, known) == Collect(b, Collect(a, known))
    decreases |a|
  {
    hide Resolve;
    if a == [] {
      assert a + b == b;
    } else {
      assert (a + b)[1..] == a[1..] + b && (a + b)[0] == a[0];
      var r := Resolve(a[0].0);
      CollectAppend(a[1..], b, if r.None? then known else known[r.value := a[0].1]);
    }
  }

  lemma AnnouncesChunks(req: S.Request, v: S.Item)
    ensures var fields := Collect(S.ChunkedFields(req, v), map[]);
      TransferEncoding in fields && fields[TransferEncoding] == "chunked"
  {
    hide Resolve, LowerAll, Collect, S.Optional, S.MetaFields;
    var pre := [("Content-Type", v.contentType)] + S.Optional("Last-Modified", v.date);
    var post := S.Optional("X-Original-Source", v.origin) + S.MetaFields(req);
    assert S.ChunkedFields(req, v) == pre + ([("Transfer-Encoding", "chunked")] + post);
    CollectAppend(pre, [("Transfer-Encoding", "chunked")] + post, map[]);
    CollectFirst(post, Collect(pre, map[]));
    forall x | x in post ensures Resolve(x.0) != Some(TransferEncoding) {
      OnlyItsName(x.0);
      OtherName(req, v.origin, x);
    }
    CollectKeeps(post, Collect(pre, map[])[TransferEncoding := "chunked"], TransferEncoding, "chunked");
  }

  lemma CollectFirst(post: seq<(string, string)>, known: map<Field, string>)
    ensures Collect([("Transfer-Encoding", "chunked")] + post, known) == Collect(post, known[TransferEncoding := "chunked"])
  {
    hide Resolve;
    TransferEncodingResolves();
    var fs := [("Transfer-Encoding", "chunked")] + post;
    assert fs[1..] == post && fs[0] == ("Transfer-Encoding", "chunked");
  }

  lemma OtherName(req: S.Request, origin: string, x: (string, string))
    requires x in S.Optional("X-Original-Source", origin) + S.MetaFields(req)
    ensures LowerAll(x.0) != "transfer-encoding"
  {
    hide LowerAll;
    assert x.0 == "X-Original-Source" || x.0 == "Connection" || x.0 == "Date" || x.0 == "Server";
    assert Lower(x.0[0]) != 't';
    assert LowerAll(x.0)[0] == Lower(x.0[0]);
  }

  /** A downloader that follows the answer and stores what it is given. */
  ghost predicate Accepts(rules: D.Rules) {
    !rules.headOnly && forall h: HeadData :: h.code == 200 ==> rules.judge(h) == D.Good(true)
  }

  predicate GoodItem(req: S.Request, v: S.Item) {
    v.code == 200 && PrintableMsg(v.msg) && forall f :: f in S.ChunkedFields(req, v) ==> Printable(f)
  }

  lemma HeadIsPrinted(req: S.Request, j: S.Job, v: S.Item)
    requires v.code == 200 && !req.notModified(v) && S.GoesChunked(j, v)
    ensures S.Cook(req, j, v).sendbuf == PrintAnswer(S.Proto(req), 200, v.msg, S.ChunkedFields(req, v))
    ensures S.Cook(req, j, v) == j.(activity := S.SendingChunkHeader, to := -1, from := 0, sendbuf := S.Cook(req, j, v).sendbuf)
  {
    hide PrintFields, S.ChunkedFields, Dec;
  }

  /** The head in front of the chunks puts a fresh download job into chunk mode. */
  lemma ReadsHead(rules: D.Rules, req: S.Request, v: S.Item, w: string)
    requires Accepts(rules) && GoodItem(req, v)
    ensures var head := PrintAnswer(S.Proto(req), 200, v.msg, S.ChunkedFields(req, v));
      D.Process(D.Job(rules, D.GetHeader, 0, true, ""), head + w, false) ==
      D.Process(D.Job(rules, D.GetChunkHead, 0, true, ""), w, false)
  {
    hide PrintAnswer, Collect, PrintableMsg, Printable, Parse, LowerAll, S.ChunkedFields, Resolve, D.AnswerTurn;
    var fs := S.ChunkedFields(req, v);
    var head := PrintAnswer(S.Proto(req), 200, v.msg, fs);
    var h := HeadData(Answer, S.Proto(req), 200, v.msg, Collect(fs, map[]));
    AnnouncesChunks(req, v);
    TransferEncodingResolves();
    ParseOfPrinted(EMPTY_HEAD, S.Proto(req), 200, v.msg, fs);
    PrintedNotEmpty(S.Proto(req), v.msg, fs);
    assert D.SaysChunked(h);
    ReadsAnswer(D.Job(rules, D.GetHeader, 0, true, ""), head, h, w);
  }

  lemma ReadsAnswer(j: D.Job, head: string, h: HeadData, w: string)
    requires Accepts(j.rules) && j.phase.GetHeader? && j.allow && j.rest == 0
    requires head != "" && Parse(EMPTY_HEAD, head) == (|head|, h) && h.kind.Answer? && h.code == 200 && D.SaysChunked(h)
    ensures D.Process(j, head + w, false) == D.Process(j.(phase := D.GetChunkHead), w, false)
  {
    hide Parse, D.AnswerTurn, D.SaysChunked, Accepts;
    LoadStable(EMPTY_HEAD, head, w);
    AcceptedHead(j, head + w, h, |head|);
    DropGrows(head, w, |head|);
    assert head[|head|..] == "" && "" + w == w;
    assert D.HeaderTurn(j, head + w, false) == D.Go(j.(phase := D.GetChunkHead), w, false);
    assert D.Step(j, head + w, false) == D.Go(j.(phase := D.GetChunkHead), w, false) by { hide D.HeaderTurn; }
    hide D.Step, D.HeaderTurn;
  }

  lemma PrintedNotEmpty(proto: char, msg: string, fs: seq<(string, string)>)
    ensures PrintAnswer(proto, 200, msg, fs) != ""
  {
    hide PrintFields, Dec;
  }

  lemma AcceptedHead(j: D.Job, buf: string, h: HeadData, n: nat)
    requires Accepts(j.rules) && j.phase.GetHeader? && j.allow && j.rest == 0 && 0 < n <= |buf|
    requires h.code == 200 && D.SaysChunked(h)
    ensures D.AnswerTurn(j, buf, h, n, false) == D.Go(j.(phase := D.GetChunkHead), buf[n..], false)
  {
    hide Parse, D.SaysClose, D.SaysChunked, D.Atoofft;
  }

  // ---------------------------------------------------------------- the whole way

  function Fresh(rules: D.Rules): D.Session {
    D.Session([D.Job(rules, D.GetHeader, 0, true, "")], [], "", {})
  }

  /** One response was decoded, it is exactly `body`, and no byte is left over. */
  predicate Stored(s: D.Session, body: string) {
    s.queue == [] && s.buf == "" && s.halted == {} && |s.finished| == 1 && s.finished[0].stored == body
  }

  lemma ReadsAll(rules: D.Rules, req: S.Request, v: S.Item, ps: seq<string>)
    requires Accepts(rules) && GoodItem(req, v)
    requires forall p :: p in ps ==> 0 < |p| < 0x1_0000_0000
    ensures var wire := PrintAnswer(S.Proto(req), 200, v.msg, S.ChunkedFields(req, v)) + C.Encode(ps) + C.LAST_CHUNK;
      Stored(D.Feed(Fresh(rules), wire), Concat(ps)) && !D.Fragile(Fresh(rules), wire)
  {
    hide PrintAnswer, S.ChunkedFields, D.Process, C.Encode, Accepts, GoodItem;
    var head := PrintAnswer(S.Proto(req), 200, v.msg, S.ChunkedFields(req, v));
    var w := C.Encode(ps) + (C.LAST_CHUNK + "");
    ReadsHead(rules, req, v, w);
    C.DecodeEncoded(D.Job(rules, D.GetChunkHead, 0, true, ""), "", ps, "");
    assert "" + w == w;
    C.Assoc(head, C.Encode(ps), C.LAST_CHUNK);
    assert C.LAST_CHUNK + "" == C.LAST_CHUNK;
    assert "" + (head + w) == head + w;
    assert "" + Concat(ps) == Concat(ps);
    assert head + w != "" by { assert |C.LAST_CHUNK| == 5; }
    var s := D.More(Fresh(rules), head + w);
    var t := D.Process(s.queue[0], s.buf, false);
    assert s.queue[1..] == [] && [] + [t.job] == [t.job];
    assert D.Pump(D.Session([], [t.job], "", {})) == (D.Session([], [t.job], "", {}), false);
    assert D.Pump(s) == (D.Session([], [t.job], "", {}), false);
  }

  /** For every growth of the item, every partial send and every way the bytes are cut on the
      wire: once the job has reported a clean end, what it sent is a chunked response with the
      whole body, and if no chunk needs more than 32 bits for its size the downloader that
      reads it has finished one item, byte for byte the body, with nothing left over. */
  lemma ChunkedDelivery(req: S.Request, body: string, from: int, to: int, v: S.Item, ios: seq<S.Io>,
                        rules: D.Rules, pieces: seq<string>) returns (ps: seq<string>)
    requires Accepts(rules) && GoodItem(req, v) && !req.headOnly && !req.notModified(v)
    requires S.GoesChunked(S.NewJob(from, to), v)
    requires S.PossibleRun(req, body, S.Cook(req, S.NewJob(from, to), v), ios)
    requires var j := S.RunAll(req, body, S.Cook(req, S.NewJob(from, to), v), ios); j.ok && Concat(pieces) == j.wire
    requires pieces != []
    ensures Concat(ps) == body
    ensures (forall p :: p in ps ==> |p| < 0x1_0000_0000) ==> Stored(D.FeedAll(Fresh(rules), pieces), body)
    ensures (forall p :: p in ps ==> |p| < 0x1_0000_0000) ==>
      forall early :: early != [] && IsCutOff(early, pieces) ==> D.FeedAll(Fresh(rules), early).finished == []
  {
    hide PrintAnswer, S.ChunkedFields, C.Encode, Accepts, S.Cook, S.RunAll, S.PossibleRun, D.Process, D.Feed, D.Fragile;
    var j1 := S.Cook(req, S.NewJob(from, to), v);
    HeadIsPrinted(req, S.NewJob(from, to), v);
    PrintedNotEmpty(S.Proto(req), v.msg, S.ChunkedFields(req, v));
    assert "" + j1.sendbuf == j1.sendbuf == j1.sendbuf + C.Encode([]) by { EncodeNone(j1.sendbuf); }
    ps := C.ChunkRun(req, body, j1.sendbuf, [], j1, ios);
    var j := S.RunAll(req, body, j1, ios);
    assert j.wire + "" == j.wire;
    if forall p :: p in ps ==> |p| < 0x1_0000_0000 {
      ReadsAll(rules, req, v, ps);
      F.FragmentationIndependence(Fresh(rules), pieces);
      forall early | early != [] && IsCutOff(early, pieces)
        ensures D.FeedAll(Fresh(rules), early).finished == []
      {
        NotBefore(rules, early, Concat(pieces), body);
      }
    }
  }

  lemma EncodeNone(s: string)
    ensures s == s + C.Encode([])
  {
  }

  /** The bytes of `early` are a proper part of the stream, from its beginning. */
  predicate IsCutOff(early: seq<string>, pieces: seq<string>) {
    Concat(early) < Concat(pieces)
  }

  /** A stream that is stored without a byte left over is not finished any sooner. */
  lemma NotBefore(rules: D.Rules, early: seq<string>, wire: string, body: string)
    requires early != [] && Concat(early) < wire
    requires Stored(D.Feed(Fresh(rules), wire), body) && !D.Fragile(Fresh(rules), wire)
    ensures D.FeedAll(Fresh(rules), early).finished == []
  {
    hide D.Feed, D.FeedAll, Concat, D.Fragile;
    var a, b := Concat(early), wire[|Concat(early)|..];
    assert wire == a + b && |b| > 0;
    NotOnPart(Fresh(rules), a, b);
    F.FragmentationIndependence(Fresh(rules), early);
  }

  lemma NotOnPart(s: D.Session, a: string, b: string)
    requires |s.queue| == 1 && s.finished == [] && s.halted == {} && |b| > 0
    requires !D.Fragile(s, a + b) && D.Feed(s, a + b).buf == ""
    ensures D.Feed(s, a).finished == [] && !D.Fragile(s, a)
  {
    hide D.Pump;
    assert D.More(D.More(s, a), b) == D.More(s, a + b) by { C.Assoc(s.buf, a, b); }
    F.PumpSplit(D.More(s, a), b);
    OneJobOnly(D.More(s, a), b);
  }

  lemma OneJobOnly(s: D.Session, b: string)
    requires |s.queue| == 1 && s.finished == [] && s.halted == {}
    ensures var t := D.Pump(s).0;
      t.finished != [] ==> D.Pump(D.More(t, b)).0.buf == t.buf + b
  {
    hide D.Process;
  }
}
