/** The head of a plain answer keeps its word: what it says about the body is read from it as it was
    meant, and a job that ends cleanly has sent exactly that body. */
module Promise {
  import opened Text
  import opened HeaderParser
  import opened RemoteStatus
  import opened Delivery
  import D = Decoder
  import E = EndToEnd
  import S = Sender
  import W = Wire

  /** The fields of the head, for a range or for the whole item. */
  function Fields(req: S.Request, j: S.Job, v: S.Item): seq<(string, string)> {
    if S.ServesRange(j, v)
    then S.RangeFields(req, v, j.from, j.to, if j.to < 0 then v.contLen - j.from else j.to + 1 - j.from)
    else S.FullFields(req, v)
  }

  /** The answer as it goes over the wire. */
  function Reply(req: S.Request, j: S.Job, v: S.Item, body: string): W.Reply {
    var (code, msg) := if S.ServesRange(j, v) then (206, "Partial Content") else (200, "OK");
    W.Reply(S.Proto(req), code, msg, Fields(req, j, v), W.Sized(body))
  }

  predicate AllPrintable(fs: seq<(string, string)>) { forall f :: f in fs ==> Printable(f) }

  /** None of the fields beside the length is taken for it, or for an encoding. */
  lemma OtherFields(x: (string, string))
    requires x.0 in {"Content-Type", "Last-Modified", "Content-Range", "X-Original-Source", "Connection", "Date", "Server"}
    ensures Resolve(x.0) != Some(ContentLength) && Resolve(x.0) != Some(TransferEncoding)
  {
    hide Resolve, LowerAll;
    E.OnlyLength(x.0);
    E.OnlyItsName(x.0);
    assert |LowerAll(x.0)| == |x.0| != |"content-length"|;
    assert Lower(x.0[0]) != 't';
    assert LowerAll(x.0)[0] == Lower(x.0[0]);
  }

  lemma LengthIsNoEncoding()
    ensures Resolve("Content-Length") != Some(TransferEncoding)
  {
    hide Resolve;
    E.ContentLengthResolves();
  }

  /** Wherever the length stands among them, it is the one that is read. */
  lemma LengthFound(pre: seq<(string, string)>, text: string, post: seq<(string, string)>)
    requires forall x :: x in pre + post ==>
      x.0 in {"Content-Type", "Last-Modified", "Content-Range", "X-Original-Source", "Connection", "Date", "Server"}
    ensures var known := Collect(pre + ([("Content-Length", text)] + post), map[]);
      ContentLength in known && known[ContentLength] == text && TransferEncoding !in known
  {
    hide Resolve, Collect;
    var fs := [("Content-Length", text)] + post;
    E.CollectAppend(pre, fs, map[]);
    LengthFirst(post, text, Collect(pre, map[]));
    forall x | x in post ensures Resolve(x.0) != Some(ContentLength) { OtherFields(x); }
    E.CollectKeeps(post, Collect(pre, map[])[ContentLength := text], ContentLength, text);
    LengthIsNoEncoding();
    forall x | x in pre + fs ensures Resolve(x.0) != Some(TransferEncoding) {
      if x.0 != "Content-Length" { OtherFields(x); }
    }
    E.CollectLacks(pre + fs, map[], TransferEncoding);
  }

  lemma LengthFirst(post: seq<(string, string)>, text: string, known: map<Field, string>)
    ensures Collect([("Content-Length", text)] + post, known) == Collect(post, known[ContentLength := text])
  {
    hide Resolve;
    E.ContentLengthResolves();
    var fs := [("Content-Length", text)] + post;
    assert fs[1..] == post && fs[0] == ("Content-Length", text);
  }

  lemma LengthRead(n: nat)
    requires n <= LLONG_MAX
    ensures D.Atoofft(Some(S.IntText(n)), -1) == n
  {
    hide Dec;
    assert forall i :: 0 <= i < |Dec(n)| ==> IsDigit(Dec(n)[i]);
    assert '\0' !in Dec(n);
    CStrNone(Dec(n));
    DecRoundTrip(n, "");
    assert Dec(n) + "" == Dec(n);
  }

  lemma Printed(msg: string)
    requires msg == "OK" || msg == "Partial Content"
    ensures PrintableMsg(msg)
  {
    hide FindCrlf;
    assert forall i :: 0 <= i < |msg| ==> msg[i] != '\r';
  }

  /** A request for an item of known length that can be met. */
  predicate Asked(req: S.Request, body: string, from: int, to: int, v: S.Item) {
    && Plain(req, v) && v.contLen == |body| <= LLONG_MAX && v.size <= |body|
    && var j := S.NewJob(from, to); !S.Unsatisfiable(j, v) && (S.ServesRange(j, v) ==> to < 0 || from <= to)
  }

  lemma InBounds(req: S.Request, body: string, from: int, to: int, v: S.Item)
    requires Asked(req, body, from, to, v)
    ensures var j := S.NewJob(from, to);
      0 <= StartOf(j, v) <= EndOf(j, v) <= |body| && S.Cook(req, j, v).promised == EndOf(j, v) - StartOf(j, v)
  {
    hide PrintFields, S.IntText, S.StatusLine, S.Quick, S.RangeFields, S.FullFields;
  }

  /** The part of the body that is asked for. */
  function Part(req: S.Request, body: string, from: int, to: int, v: S.Item): string
    requires Asked(req, body, from, to, v)
  {
    InBounds(req, body, from, to, v);
    body[StartOf(S.NewJob(from, to), v)..EndOf(S.NewJob(from, to), v)]
  }

  lemma HeadIs(req: S.Request, body: string, from: int, to: int, v: S.Item)
    requires Asked(req, body, from, to, v)
    ensures var j := S.NewJob(from, to);
      forall part :: S.Cook(req, j, v).sendbuf == W.HeadText(Reply(req, j, v, part))
  {
    hide PrintFields, S.RangeFields, S.FullFields, Dec;
  }

  /** The head announces exactly that part: it is a well-formed answer with it. */
  lemma HeadKeepsWord(req: S.Request, body: string, from: int, to: int, v: S.Item)
    requires Asked(req, body, from, to, v) && AllPrintable(Fields(req, S.NewJob(from, to), v))
    ensures var j := S.NewJob(from, to); var reply := Reply(req, j, v, Part(req, body, from, to, v));
      && S.Cook(req, j, v).sendbuf == W.HeadText(reply) && W.Complete(reply)
      && D.Atoofft(D.FieldOf(W.HeadOf(reply), ContentLength), -1) == S.Cook(req, j, v).promised
  {
    var j := S.NewJob(from, to);
    var part := Part(req, body, from, to, v);
    InBounds(req, body, from, to, v);
    HeadIs(req, body, from, to, v);
    Printed("OK");
    Printed("Partial Content");
    AnnouncedLength(req, j, v, |part|);
    hide S.Cook, Fields, Collect, PrintableMsg, W.HeadText, W.Complete, AllPrintable, Part, W.HeadOf, D.Atoofft, D.FieldOf;
    WellFormed(Reply(req, j, v, part));
  }

  lemma WellFormed(a: W.Reply)
    requires a.body.Sized? && |a.body.text| <= LLONG_MAX && (a.code == 200 || a.code == 206) && PrintableMsg(a.msg) && AllPrintable(a.fields)
    requires var known := Collect(a.fields, map[]);
      ContentLength in known && known[ContentLength] == S.IntText(|a.body.text|) && TransferEncoding !in known
    ensures W.Complete(a) && D.Atoofft(D.FieldOf(W.HeadOf(a), ContentLength), -1) == |a.body.text|
  {
    LengthRead(|a.body.text|);
    hide PrintableMsg, Printable, Collect, S.IntText, D.Atoofft;
  }

  lemma AnnouncedLength(req: S.Request, j: S.Job, v: S.Item, n: nat)
    requires n == if S.ServesRange(j, v) then (if j.to < 0 then v.contLen - j.from else j.to + 1 - j.from) else v.contLen
    ensures var known := Collect(Fields(req, j, v), map[]);
      ContentLength in known && known[ContentLength] == S.IntText(n) && TransferEncoding !in known
  {
    hide S.IntText, Collect;
    var post := S.Optional("X-Original-Source", v.origin) + S.MetaFields(req);
    var pre := [("Content-Type", v.contentType)] + S.Optional("Last-Modified", v.date);
    if S.ServesRange(j, v) {
      var last := if j.to > 0 then j.to else v.contLen - 1;
      var range := [("Content-Range", "bytes " + S.IntText(j.from) + "-" + S.IntText(last) + "/" + S.IntText(v.contLen))];
      LengthFound(pre + range, S.IntText(n), post);
      assert Fields(req, j, v) == pre + range + ([("Content-Length", S.IntText(n))] + post);
    } else {
      LengthFound(pre, S.IntText(n), post);
      assert Fields(req, j, v) == pre + ([("Content-Length", S.IntText(n))] + post);
    }
  }

  /** From cache to cache: for every request for a range or the whole, every growth of the item,
      every partial send and every way the bytes are cut on the wire, a job that has reported a clean
      end has sent one well-formed answer, and the downloader that reads it is finished with
      exactly the part that was asked for. */
  lemma RangeArrives(req: S.Request, body: string, from: int, to: int, v: S.Item, ios: seq<S.Io>, dj: D.Job, pieces: seq<string>)
    requires Asked(req, body, from, to, v) && AllPrintable(Fields(req, S.NewJob(from, to), v))
    requires S.PossibleRun(req, body, S.Cook(req, S.NewJob(from, to), v), ios)
    requires var j := S.RunAll(req, body, S.Cook(req, S.NewJob(from, to), v), ios); j.ok && Concat(pieces) == j.wire && pieces != []
    requires W.Takes(dj, Reply(req, S.NewJob(from, to), v, Part(req, body, from, to, v)))
    ensures var reply := Reply(req, S.NewJob(from, to), v, Part(req, body, from, to, v));
      && S.RunAll(req, body, S.Cook(req, S.NewJob(from, to), v), ios).wire == W.Bytes(reply)
      && D.FeedAll(W.Waiting([dj]), pieces) == D.Session([], [W.Served(dj, reply)], "", {})
  {
    hide Fields, S.Cook, S.RunAll, S.PossibleRun, W.HeadText, W.Takes, W.Complete, W.Served, D.FeedAll, Concat, AllPrintable;
    var reply := Reply(req, S.NewJob(from, to), v, Part(req, body, from, to, v));
    RangeDelivery(req, body, from, to, v, ios);
    HeadKeepsWord(req, body, from, to, v);
    assert W.Bytes(reply) == W.HeadText(reply) + Part(req, body, from, to, v);
    assert W.Stream([reply]) == W.Bytes(reply) + W.Stream([]) == W.Bytes(reply) by { assert [reply][1..] == []; }
    W.AnswersInOrder([dj], [reply], pieces);
    assert W.AllServed([dj], [reply]) == [W.Served(dj, reply)];
  }

  // ---------------------------------------------------------------- what the head says about the place

  function RangeText(first: int, last: int, total: int): string {
    "bytes " + S.IntText(first) + "-" + S.IntText(last) + "/" + S.IntText(total)
  }

  lemma IntTextOf(a: nat, b: nat)
    requires a <= LLONG_MAX && b <= LLONG_MAX && S.IntText(a) == S.IntText(b)
    ensures a == b
  {
    LengthRead(a);
    LengthRead(b);
    hide S.IntText, D.Atoofft;
  }

  lemma SameRange(first: nat, a: nat, b: nat, total: nat)
    requires a <= LLONG_MAX && b <= LLONG_MAX && RangeText(first, a, total) == RangeText(first, b, total)
    ensures a == b
  {
    hide S.IntText;
    var pre, post := "bytes " + S.IntText(first) + "-", "/" + S.IntText(total);
    var x, y := S.IntText(a), S.IntText(b);
    assert RangeText(first, a, total) == pre + x + post && RangeText(first, b, total) == pre + y + post;
    assert |x| == |y|;
    assert x == (pre + x + post)[|pre|..|pre| + |x|] && y == (pre + y + post)[|pre|..|pre| + |y|];
    IntTextOf(a, b);
  }

  /** The Content-Range of a partial answer names the bytes that are sent, exactly unless only the
      first one is asked for, of more than one: then it names them all. */
  lemma RangeNamedIff(req: S.Request, body: string, from: int, to: int, v: S.Item)
    requires Asked(req, body, from, to, v) && S.ServesRange(S.NewJob(from, to), v)
    ensures var j := S.NewJob(from, to);
      && 0 <= StartOf(j, v) < EndOf(j, v)
      && (("Content-Range", RangeText(StartOf(j, v), EndOf(j, v) - 1, v.contLen)) in Fields(req, j, v)
          <==> !(to == 0 && v.contLen > 1))
      && (to == 0 ==> ("Content-Range", RangeText(0, v.contLen - 1, v.contLen)) in Fields(req, j, v))
  {
    hide S.IntText;
    var j := S.NewJob(from, to);
    var last := if to > 0 then to else v.contLen - 1;
    var fs := Fields(req, j, v);
    var n := |[("Content-Type", v.contentType)] + S.Optional("Last-Modified", v.date)|;
    assert fs[n] == ("Content-Range", RangeText(from, last, v.contLen));
    OnlyRange(req, j, v, n);
    hide Fields;
    if ("Content-Range", RangeText(from, EndOf(j, v) - 1, v.contLen)) in fs {
      SameRange(from, EndOf(j, v) - 1, last, v.contLen);
    }
  }

  lemma OnlyRange(req: S.Request, j: S.Job, v: S.Item, n: nat)
    requires S.ServesRange(j, v) && n == |[("Content-Type", v.contentType)] + S.Optional("Last-Modified", v.date)|
    ensures var fs := Fields(req, j, v);
      n < |fs| && forall i :: 0 <= i < |fs| && fs[i].0 == "Content-Range" ==> i == n
  {
    hide S.IntText;
  }
}
