/** tDlJob's stream decoder (src/dlcon.cc): turns the bytes of a connection, in whatever
    pieces they arrive, into heads handed to the cache item and body bytes stored in it. */
module Decoder {
  import opened Text
  import opened HeaderParser
  import opened Buffer
  import opened RemoteStatus

  datatype Phase = GetHeader | ProcessData | GetChunkHead | ProcessChunkData | GetChunkTrailer | FinishJob

  /** The HINT_ and EFLAG_ bits; HINT_MORE is the empty set. */
  datatype Flag =
    | Done | ReconnectNow | JobBroken | MirrorBroken | StoreCollision | LostCon
    | KillLastFile | TgtChange | ReconnectSoon | Switch

  /** What the cache item says about a head (CheckAndSaveHeader). */
  datatype Verdict = Good(allow: bool) | RestartNeeded | BusyOrError(allow: bool)

  /** What a job's decisions depend on besides the bytes: configuration, its request, and the
      item's and redirector's answers as functions of the head. */
  datatype Rules = Rules(
    followRedirects: bool,
    headOnly: bool,
    keyFile: bool,
    rewrite: Option<string> -> bool,
    judge: HeadData -> Verdict)

  datatype Job = Job(rules: Rules, phase: Phase, rest: nat, allow: bool, stored: string)

  /** One turn of the decoder loop: go on, or return to the caller. `fragile` marks the three
      places where what happens depends on how much of the stream has already arrived. */
  datatype Turn =
    | Go(job: Job, buf: string, fragile: bool)
    | Return(job: Job, buf: string, flags: set<Flag>, fragile: bool)

  function FieldOf(h: HeadData, f: Field): Option<string> {
    if f in h.fields then Some(h.fields[f]) else None
  }

  function Atoofft(s: Option<string>, default: int): int {
    if s.None? then default else Atoll(CStr(s.value))
  }

  predicate SaysClose(h: HeadData) {
    var con := FieldOf(h, if Connection in h.fields then Connection else ProxyConnection);
    con.Some? && LowerAll(con.value) == "close"
  }

  predicate SaysChunked(h: HeadData) {
    TransferEncoding in h.fields && LowerAll(h.fields[TransferEncoding]) == "chunked"
  }

  /** The part of STATE_GETHEADER that runs once a whole head of `n` bytes is there. */
  function AnswerTurn(j: Job, buf: string, h: HeadData, n: nat, probe: bool): (t: Turn)
    requires 0 < n <= |buf|
    ensures |t.buf| <= |buf| && (t.Go? ==> |t.buf| < |buf|)
  {
    var ret := if SaysClose(h) then {ReconnectSoon} else {};
    if h.code < 200 then
      Return(j, buf[n..], ret, ret == {} && Parse(EMPTY_HEAD, buf[n..]).0 != 0)
    else if j.rules.followRedirects && IsRedirect(h.code) then
      if !j.rules.rewrite(FieldOf(h, Location)) then Return(j, buf, ret + {JobBroken}, false)
      else
        var contLen := Atoofft(FieldOf(h, ContentLength), 0);
        if 0 <= contLen <= |buf| then Return(j, buf[contLen..], ret + {TgtChange}, n < contLen)
        else Return(j, buf, ret + {TgtChange}, false)
    else if j.rules.followRedirects && probe then
      Return(j, buf, ret + {LostCon, ReconnectNow}, false)
    else if h.code >= 400 && j.rules.keyFile then
      Return(j, buf, ret + {ReconnectNow, MirrorBroken}, false)
    else AcceptTurn(j, buf, h, n, ret)
  }

  /** The rest of it, for an answer that is about the requested item. */
  function AcceptTurn(j: Job, buf: string, h: HeadData, n: nat, ret: set<Flag>): (t: Turn)
    requires 0 < n <= |buf|
    ensures |t.buf| <= |buf| && (t.Go? ==> |t.buf| < |buf|) && !t.fragile
  {
    var contLen := Atoofft(FieldOf(h, ContentLength), -1);
    if !j.rules.headOnly && !SaysChunked(h) && contLen < 0 then
      Return(j, buf, ret + {ReconnectNow, JobBroken}, false)
    else
      var phase := if j.rules.headOnly then FinishJob
                   else if SaysChunked(h) then GetChunkHead else ProcessData;
      var rest := if j.rules.headOnly then 0 else if SaysChunked(h) then j.rest else contLen;
      var h1 := if !j.rules.headOnly && SaysChunked(h) then h.(fields := h.fields - {TransferEncoding}) else h;
      match j.rules.judge(h1)
      case RestartNeeded =>
        Return(j.(phase := phase, rest := rest), buf[n..], ret + {LostCon, ReconnectNow}, false)
      case BusyOrError(allow) =>
        Return(j.(phase := ProcessData, rest := rest, allow := allow), buf[n..],
               ret + {ReconnectNow, JobBroken, StoreCollision}, false)
      case Good(allow) =>
        Go(j.(phase := phase, rest := rest, allow := allow), buf[n..], false)
  }

  function HeaderTurn(j: Job, buf: string, probe: bool): (t: Turn)
    ensures |t.buf| <= |buf| && (t.Go? ==> |t.buf| < |buf|)
  {
    var (n, h) := Parse(EMPTY_HEAD, buf);
    LoadLength(EMPTY_HEAD, buf);
    if buf == "" || n == 0 then Return(j, buf, {}, false)
    else if n < 0 then Return(j, buf, {MirrorBroken, ReconnectNow, KillLastFile}, false)
    else if !h.kind.Answer? then Return(j, buf, {MirrorBroken, LostCon, ReconnectNow}, false)
    else AnswerTurn(j, buf, h, n, probe)
  }

  /** NewDataHandler. */
  function DataTurn(j: Job, buf: string): (t: Turn)
    ensures |t.buf| <= |buf|
    ensures t.Return? ==> t.flags == {}
    ensures t.Go? ==> t.job.phase == if j.phase.ProcessData? then FinishJob else GetChunkHead
  {
    var n := if |buf| < j.rest then |buf| else j.rest;
    var j1 := j.(rest := j.rest - n, stored := if j.allow then j.stored + buf[..n] else j.stored);
    if j1.rest != 0 then Return(j1, buf[n..], {}, false)
    else Go(j1.(phase := if j.phase.ProcessData? then FinishJob else GetChunkHead), buf[n..], false)
  }

  function DropNewlines(s: string): (r: string)
    ensures |r| <= |s|
    ensures r != "" ==> r[0] != '\r' && r[0] != '\n'
  {
    if s != "" && (s[0] == '\r' || s[0] == '\n') then DropNewlines(s[1..]) else s
  }

  function ChunkHeadTurn(j: Job, buf: string): (t: Turn)
    ensures |t.buf| <= |buf| && (t.Go? ==> |t.buf| < |buf|)
  {
    var b := DropNewlines(buf);
    var crlf := StrStrCrlf(b);
    if crlf.None? then Return(j, b, {}, false)
    else
      var len := ScanHex(b);
      var stray := Blank(b[..crlf.value]) && len.Some?;
      if len.None? then Return(j, b, {JobBroken}, false)
      else if len.value > 0 then Go(j.(rest := len.value, phase := ProcessChunkData), b[crlf.value + 2..], stray)
      else Go(j.(phase := GetChunkTrailer), b[crlf.value + 2..], stray)
  }

  function TrailerTurn(j: Job, buf: string): (t: Turn)
    ensures |t.buf| <= |buf| && (t.Go? ==> |t.buf| < |buf|)
  {
    var crlf := StrStrCrlf(buf);
    if |buf| < 2 || crlf.None? then Return(j, buf, {}, false)
    else if crlf.value == 0 then Go(j.(phase := FinishJob), buf[2..], false)
    else Go(j, buf[crlf.value + 2..], false)
  }

  function Step(j: Job, buf: string, probe: bool): (t: Turn)
    ensures |t.buf| <= |buf|
    ensures t.Go? ==> |t.buf| < |buf| || Rank(t.job.phase) < Rank(j.phase)
  {
    match j.phase
    case GetHeader => HeaderTurn(j, buf, probe)
    case ProcessData => DataTurn(j, buf)
    case ProcessChunkData => DataTurn(j, buf)
    case GetChunkHead => ChunkHeadTurn(j, buf)
    case GetChunkTrailer => TrailerTurn(j, buf)
    case FinishJob => Return(j.(phase := GetHeader), buf, {Done}, false)
  }

  function Rank(p: Phase): nat {
    match p
    case ProcessData => 2
    case ProcessChunkData => 2
    case FinishJob => 0
    case _ => 1
  }

  /** ProcessIncomming: turns until one returns. */
  function Process(j: Job, buf: string, probe: bool): (r: Turn)
    ensures r.Return? && |r.buf| <= |buf|
    decreases |buf|, Rank(j.phase)
  {
    var t := Step(j, buf, probe);
    if t.Return? then t
    else
      var r := Process(t.job, t.buf, probe);
      r.(fragile := t.fragile || r.fragile)
  }

  // ---------------------------------------------------------------- pipelined responses

  /** One connection: the jobs whose requests are out, those already answered, the unread
      bytes, and the flags that ended the exchange, if any did. */
  datatype Session = Session(queue: seq<Job>, finished: seq<Job>, buf: string, halted: set<Flag>)

  /** The data loop of ExchangeData: each finished job hands the remaining bytes to the next. */
  function Pump(s: Session): (Session, bool)
    decreases |s.queue|
  {
    if s.buf == "" || s.queue == [] || s.halted != {} then (s, false)
    else
      var t := Process(s.queue[0], s.buf, false);
      if t.flags == {} then (s.(queue := s.queue[0 := t.job], buf := t.buf), t.fragile)
      else if Done in t.flags then
        var (r, f) := Pump(Session(s.queue[1..], s.finished + [t.job], t.buf, {}));
        (r, t.fragile || f)
      else (s.(queue := s.queue[0 := t.job], buf := t.buf, halted := t.flags), t.fragile)
  }

  /** Behind a redirection, the rest of the pipeline is probed for more of them; true if there was
      anything else. */
  function Probe(js: seq<Job>, buf: string): (r: (seq<Job>, string, bool))
    ensures |r.0| == |js|
    decreases |js|
  {
    if js == [] then (js, buf, false)
    else
      var t := Process(js[0], buf, true);
      if t.flags != {TgtChange} then ([t.job] + js[1..], t.buf, true)
      else
        var (rest, left, mixed) := Probe(js[1..], t.buf);
        ([t.job] + rest, left, mixed)
  }

  /** All that ExchangeData does with the bytes at hand. */
  function DataLoop(s: Session): (Session, bool) {
    var r := Pump(s).0;
    if TgtChange in r.halted && r.queue != [] then
      var (rest, left, mixed) := Probe(r.queue[1..], r.buf);
      (r.(queue := [r.queue[0]] + rest, buf := left), mixed)
    else (r, false)
  }

  /** What ExchangeData returns then; `left` jobs are still in the pipeline. Without flags, the bytes
      at hand were used up (and it reads on if the front job wants more), or the last job was finished. */
  function HandUp(f: set<Flag>, left: nat, mixed: bool, bufEmpty: bool): set<Flag> {
    if f == {} then if left == 0 then {Switch} else {Done}
    else if TgtChange in f then {TgtChange} + (if mixed || !bufEmpty then {ReconnectNow} else {})
    else f
  }

  function More(s: Session, bytes: string): Session { s.(buf := s.buf + bytes) }

  /** The session after one read of the socket. */
  function Feed(s: Session, bytes: string): Session { Pump(More(s, bytes)).0 }

  /** Whether reading all these bytes at once meets one of the fragile places. */
  predicate Fragile(s: Session, bytes: string) { Pump(More(s, bytes)).1 }

  function FeedAll(s: Session, pieces: seq<string>): Session
    decreases |pieces|
  {
    if pieces == [] then s else FeedAll(Feed(s, pieces[0]), pieces[1..])
  }
}
