/** What reaches a client: a clean end of a range or full response means that exactly the
    announced bytes were handed out, for any growth of the item and any partial sends. */
module Delivery {
  import opened Text
  import opened HeaderParser
  import opened ItemStatus
  import opened Sender

  /** `start` is the first byte of the response body, `head` the text sent before it. */
  ghost predicate Serving(body: string, start: nat, head: string, j: Job) {
    && 0 <= j.promised && start <= j.sendPos <= start + j.promised <= |body|
    && (if j.to >= 0 then j.to + 1 == start + j.promised else start + j.promised == |body|)
    && j.handed == body[start..j.sendPos]
    && j.wire + j.sendbuf == head + j.handed && (j.handed != "" ==> j.sendbuf == "")
    && j.allData == |j.wire| && head != ""
    && (j.activity.SendingData? || j.activity.DiscoAsap? || (j.activity.Finished? && j.ok))
    && (j.ok ==> j.sendbuf == "" && j.sendPos == start + j.promised)
  }

  lemma ServingStep(req: Request, body: string, start: nat, head: string, j: Job, io: Io)
    requires Serving(body, start, head, j) && !req.headOnly && PossibleIo(req, body, j, io)
    ensures Serving(body, start, head, SendData(req, body, j, io).0)
  {
    if j.sendbuf == "" {
      ServingAct(req, body, start, head, j, io);
    } else if io.net.Sent? {
      var n := Least(io.net.n, |j.sendbuf|);
      var j1 := Flush(j, n);
      assert j1.wire + j1.sendbuf == j.wire + j.sendbuf;
      if j1.sendbuf == "" { ServingAct(req, body, start, head, j1, io); }
    }
  }

  lemma ServingAct(req: Request, body: string, start: nat, head: string, j: Job, io: Io)
    requires Serving(body, start, head, j) && !req.headOnly && PossibleIo(req, body, j, io) && j.sendbuf == ""
    ensures Serving(body, start, head, Act(req, body, j, io).0)
  {
    hide IntText, HexText, Cook, Quick;
    assert j.wire == head + j.handed;
    if j.activity.SendingData? { ServingData(req, body, start, head, j, io); }
    hide DataStep;
  }

  lemma ServingHandOut(body: string, start: nat, head: string, j: Job, n: nat)
    requires Serving(body, start, head, j) && j.sendbuf == "" && !j.ok
    requires j.sendPos + n <= start + j.promised
    ensures Serving(body, start, head, HandOut(j, body, n))
  {
    assert body[start..j.sendPos] + body[j.sendPos..j.sendPos + n] == body[start..j.sendPos + n];
    assert j.wire + "" == j.wire;
    assert head + j.handed + body[j.sendPos..j.sendPos + n] == head + HandOut(j, body, n).handed;
    assert HandOut(j, body, n).wire + "" == HandOut(j, body, n).wire;
  }

  lemma ServingData(req: Request, body: string, start: nat, head: string, j: Job, io: Io)
    requires Serving(body, start, head, j) && !req.headOnly && PossibleIo(req, body, j, io)
    requires j.sendbuf == "" && j.activity.SendingData?
    ensures Serving(body, start, head, DataStep(req, body, j, io).0)
  {
    hide IntText, HexText, Quick;
    if Sendable(io.view) && io.file.Sent? {
      var v := io.view.value;
      var limit := if j.to >= 0 then Least(j.to + 1 - j.sendPos, v.size - j.sendPos) else v.size - j.sendPos;
      if limit > 0 { ServingHandOut(body, start, head, j, Least(io.file.n, limit)); }
    } else {
      assert j.wire == head + j.handed;
    }
  }

  lemma {:induction false} ServingRun(req: Request, body: string, start: nat, head: string, j: Job, ios: seq<Io>)
    requires Serving(body, start, head, j) && !req.headOnly && PossibleRun(req, body, j, ios)
    ensures Serving(body, start, head, RunAll(req, body, j, ios))
    decreases |ios|
  {
    hide SendData, Serving;
    if ios != [] {
      ServingStep(req, body, start, head, j, ios[0]);
      ServingRun(req, body, start, head, SendData(req, body, j, ios[0]).0, ios[1..]);
    }
  }

  /** The response to a GET of an available item of known length, as the request's range and
      the bytes present at that moment decide it. */
  predicate Plain(req: Request, v: Item) {
    !req.headOnly && v.code == 200 && !req.notModified(v) && v.contLen >= 0
  }

  /** Where the response body starts, and where the request asks it to end. */
  function StartOf(j: Job, v: Item): int { if ServesRange(j, v) then j.from else 0 }

  function EndOf(j: Job, v: Item): int {
    if ServesRange(j, v) && j.to >= 0 then j.to + 1 else v.contLen
  }

  /** For every range and every run of the sending loop: the head announces the length of the
      requested part, all that follows the head is a prefix of exactly that part, and when the
      job reports a clean end the part is complete. */
  lemma RangeDelivery(req: Request, body: string, from: int, to: int, v: Item, ios: seq<Io>)
    requires Plain(req, v) && v.contLen == |body| && v.size <= |body|
    requires var j := NewJob(from, to);
      !Unsatisfiable(j, v) && (ServesRange(j, v) ==> to < 0 || from <= to)
      && PossibleRun(req, body, Cook(req, j, v), ios)
    ensures var j0 := NewJob(from, to); var j1 := Cook(req, j0, v); var j := RunAll(req, body, j1, ios);
      var start, end := StartOf(j0, v), EndOf(j0, v);
      && 0 <= start <= end <= |body| && j1.promised == end - start
      && (start < end || body == "") && j.handed <= body[start..end]
      && j.wire + j.sendbuf == j1.sendbuf + j.handed
      && (j.ok ==> j.handed == body[start..end] && j.wire == j1.sendbuf + body[start..end])
  {
    hide PrintFields, IntText, StatusLine;
    var j0 := NewJob(from, to);
    var j1 := Cook(req, j0, v);
    var start := StartOf(j0, v);
    HeadNotEmpty(req, 200, "OK");
    HeadNotEmpty(req, 206, "Partial Content");
    assert j1.wire + j1.sendbuf == j1.sendbuf + "";
    assert Serving(body, start, j1.sendbuf, j1);
    ServingRun(req, body, start, j1.sendbuf, j1, ios);
    hide SendData;
    var j := RunAll(req, body, j1, ios);
    RunKeepsPromise(req, body, j1, ios);
    assert j.handed == body[start..EndOf(j0, v)][..j.sendPos - start];
  }

  lemma HeadNotEmpty(req: Request, code: int, msg: string)
    ensures StatusLine(req, code, msg) != ""
  {
  }

  lemma {:induction false} RunKeepsPromise(req: Request, body: string, j: Job, ios: seq<Io>)
    requires PossibleRun(req, body, j, ios)
    requires !j.activity.NotStarted?
    ensures RunAll(req, body, j, ios).promised == j.promised
    decreases |ios|
  {
    if ios != [] {
      var j1 := SendData(req, body, j, ios[0]).0;
      StepKeepsPromise(req, body, j, ios[0]);
      hide SendData;
      RunKeepsPromise(req, body, j1, ios[1..]);
    }
  }

  lemma StepKeepsPromise(req: Request, body: string, j: Job, io: Io)
    requires WellFormed(body, j) && PossibleIo(req, body, j, io) && !j.activity.NotStarted?
    ensures var j1 := SendData(req, body, j, io).0; j1.promised == j.promised && !j1.activity.NotStarted?
  {
    ActKeepsPromise(req, body, j, io);
    if j.sendbuf != "" && io.net.Sent? {
      var j1 := Flush(j, Least(io.net.n, |j.sendbuf|));
      ActKeepsPromise(req, body, j1, io);
    }
    hide Act;
  }

  lemma ActKeepsPromise(req: Request, body: string, j: Job, io: Io)
    requires WellFormed(body, j) && PossibleIo(req, body, j, io) && !j.activity.NotStarted?
    ensures var j1 := Act(req, body, j, io).0; j1.promised == j.promised && !j1.activity.NotStarted?
  {
    hide IntText, HexText, Cook;
  }

  /** A backward range is promised a length that is not positive, and no run ends cleanly. */
  lemma BackwardRange(req: Request, body: string, from: int, to: int, v: Item)
    requires Plain(req, v) && 0 <= to < from < v.size <= |body| == v.contLen
    ensures Cook(req, NewJob(from, to), v).promised == to + 1 - from <= 0
    ensures forall ios :: PossibleRun(req, body, Cook(req, NewJob(from, to), v), ios) ==>
      !RunAll(req, body, Cook(req, NewJob(from, to), v), ios).ok
  {
    BackwardHead(req, body, from, to, v);
    hide Cook;
    var j := Cook(req, NewJob(from, to), v);
    forall ios | PossibleRun(req, body, j, ios)
      ensures !RunAll(req, body, j, ios).ok
    {
      StuckRun(req, body, j, ios);
    }
  }

  lemma BackwardHead(req: Request, body: string, from: int, to: int, v: Item)
    requires Plain(req, v) && 0 <= to < from < v.size <= |body| == v.contLen
    ensures var j := Cook(req, NewJob(from, to), v); Stuck(j) && j.promised == to + 1 - from
  {
    hide PrintFields, IntText, StatusLine, Quick, RangeFields, FullFields, ChunkedFields;
    HeadNotEmpty(req, 206, "Partial Content");
  }

  ghost predicate Stuck(j: Job) {
    (j.activity.SendingData? || j.activity.DiscoAsap?) && 0 <= j.to < j.sendPos && !j.ok
    && j.allData == |j.wire| && |j.wire| + |j.sendbuf| > 0
  }

  lemma {:induction false} StuckRun(req: Request, body: string, j: Job, ios: seq<Io>)
    requires Stuck(j) && !req.headOnly && PossibleRun(req, body, j, ios)
    ensures !RunAll(req, body, j, ios).ok
    decreases |ios|
  {
    if ios != [] {
      assert Stuck(SendData(req, body, j, ios[0]).0) by { hide IntText, HexText; }
      hide SendData;
      StuckRun(req, body, SendData(req, body, j, ios[0]).0, ios[1..]);
    }
  }
}
