/** The decoder as the downloader runs it: a job object changing its state in place while it
    takes bytes out of the shared receive buffer, and the loop of ExchangeData around it. */
module DlJobs {
  import opened Text
  import opened HeaderParser
  import opened Buffer
  import opened RemoteStatus
  import opened Decoder

  class DlJob {
    const rules: Rules
    var phase: Phase
    var rest: nat
    var allow: bool
    var stored: string

    ghost function State(): Job
      reads this
    {
      Job(rules, phase, rest, allow, stored)
    }

    constructor (r: Rules)
      ensures State() == Job(r, GetHeader, 0, !r.headOnly, "")
    {
      rules, phase, rest, allow, stored := r, GetHeader, 0, !r.headOnly, "";
    }

    /** Stores what belongs to this job; true stands for HINT_SWITCH, false for HINT_MORE. */
    method NewDataHandler(inBuf: AcBuf) returns (switched: bool)
      requires inBuf.Valid()
      modifies this, inBuf
      ensures inBuf.Valid()
      ensures var t := DataTurn(old(State()), old(inBuf.Contents()));
        State() == t.job && inBuf.Contents() == t.buf && switched == t.Go?
    {
      hide DataTurn;
      ghost var t := DataTurn(State(), inBuf.Contents());
      while true
        invariant inBuf.Valid() && phase == old(phase)
        invariant SameTurn(DataTurn(State(), inBuf.Contents()), t)
        decreases inBuf.Size()
      {
        var nToStore := if inBuf.Size() < rest then inBuf.Size() else rest;
        DataPart(State(), inBuf.Contents());
        if nToStore == 0 { break; }
        if allow { stored := stored + inBuf.View()[..nToStore]; }
        rest := rest - nToStore;
        inBuf.Drop(nToStore);
      }
      if rest != 0 { return false; }
      phase := if phase.ProcessData? then FinishJob else GetChunkHead;
      return true;
    }

    /** Acts on a whole answer head of `n` bytes; `go` tells the decoder loop to go on. */
    method TakeAnswer(inBuf: AcBuf, h: HeadData, n: nat, probe: bool) returns (go: bool, flags: set<Flag>)
      requires inBuf.Valid() && 0 < n <= inBuf.Size()
      modifies this, inBuf
      ensures inBuf.Valid()
      ensures var t := AnswerTurn(old(State()), old(inBuf.Contents()), h, n, probe);
        State() == t.job && inBuf.Contents() == t.buf && go == t.Go? && (t.Return? ==> flags == t.flags)
    {
      hide Parse, Atoofft, SaysClose, IsRedirect, AcceptTurn;
      var ret: set<Flag> := if SaysClose(h) then {ReconnectSoon} else {};
      if h.code < 200 {
        inBuf.Drop(n);
        return false, ret;
      }
      if rules.followRedirects {
        if IsRedirect(h.code) {
          if !rules.rewrite(FieldOf(h, Location)) { return false, ret + {JobBroken}; }
          var contLen := Atoofft(FieldOf(h, ContentLength), 0);
          if 0 <= contLen <= inBuf.Size() { inBuf.Drop(contLen); }
          return false, ret + {TgtChange};
        }
        if probe { return false, ret + {LostCon, ReconnectNow}; }
      }
      if h.code >= 400 && rules.keyFile { return false, ret + {ReconnectNow, MirrorBroken}; }
      go, flags := Accept(inBuf, h, n, ret);
    }

    method Accept(inBuf: AcBuf, head: HeadData, n: nat, ret: set<Flag>) returns (go: bool, flags: set<Flag>)
      requires inBuf.Valid() && 0 < n <= inBuf.Size()
      modifies this, inBuf
      ensures inBuf.Valid()
      ensures var t := AcceptTurn(old(State()), old(inBuf.Contents()), head, n, ret);
        State() == t.job && inBuf.Contents() == t.buf && go == t.Go? && (t.Return? ==> flags == t.flags)
    {
      hide Atoofft, SaysChunked;
      var h := head;
      var contLen := Atoofft(FieldOf(h, ContentLength), -1);
      if rules.headOnly {
        phase := FinishJob;
      } else if SaysChunked(h) {
        phase := GetChunkHead;
        h := h.(fields := h.fields - {TransferEncoding});
      } else if contLen < 0 {
        return false, ret + {ReconnectNow, JobBroken};
      } else {
        rest := contLen;
        phase := ProcessData;
      }
      var verdict := rules.judge(h);
      inBuf.Drop(n);
      if rules.headOnly { rest := 0; }
      if verdict.RestartNeeded? { return false, ret + {LostCon, ReconnectNow}; }
      allow := verdict.allow;
      if verdict.BusyOrError? {
        phase := ProcessData;
        return false, ret + {ReconnectNow, JobBroken, StoreCollision};
      }
      return true, {};
    }

    method GetHeaderStep(inBuf: AcBuf, probe: bool) returns (go: bool, flags: set<Flag>)
      requires inBuf.Valid() && phase.GetHeader?
      modifies this, inBuf
      ensures inBuf.Valid()
      ensures var t := HeaderTurn(old(State()), old(inBuf.Contents()), probe);
        State() == t.job && inBuf.Contents() == t.buf && go == t.Go? && (t.Return? ==> flags == t.flags)
    {
      LoadLength(EMPTY_HEAD, inBuf.Contents());
      hide Parse, AnswerTurn;
      if inBuf.Size() == 0 { return false, {}; }
      var h := new Header();
      var n := h.Load(inBuf.View());
      if n == 0 { return false, {}; }
      if n < 0 { return false, {MirrorBroken, ReconnectNow, KillLastFile}; }
      if !h.kind.Answer? { return false, {MirrorBroken, LostCon, ReconnectNow}; }
      go, flags := TakeAnswer(inBuf, h.Data(), n, probe);
    }

    method ChunkHeadStep(inBuf: AcBuf) returns (go: bool, flags: set<Flag>)
      requires inBuf.Valid() && phase.GetChunkHead?
      modifies this, inBuf, inBuf.buf
      ensures inBuf.Valid()
      ensures var t := ChunkHeadTurn(old(State()), old(inBuf.Contents()));
        State() == t.job && inBuf.Contents() == t.buf && go == t.Go? && (t.Return? ==> flags == t.flags)
    {
      hide ScanHex, Blank, StrStrCrlf;
      while inBuf.Size() > 0
        invariant inBuf.Valid() && State() == old(State())
        invariant DropNewlines(inBuf.Contents()) == DropNewlines(old(inBuf.Contents()))
        decreases inBuf.Size()
      {
        var c := inBuf.View()[0];
        if c != '\r' && c != '\n' { break; }
        inBuf.Drop(1);
      }
      inBuf.Terminate();
      assert inBuf.Contents() == DropNewlines(old(inBuf.Contents()));
      var crlf := StrStrCrlf(inBuf.View());
      if inBuf.Size() == 0 || crlf.None? {
        EmptyHasNoLine();
        assert inBuf.Size() == 0 ==> inBuf.View() == "";
        inBuf.Move();
        return false, {};
      }
      var len := ScanHex(inBuf.View());
      if len.None? { return false, {JobBroken}; }
      LineFits(inBuf.View());
      inBuf.Drop(crlf.value + 2);
      if len.value > 0 {
        rest := len.value;
        phase := ProcessChunkData;
      } else {
        phase := GetChunkTrailer;
      }
      return true, {};
    }

    method TrailerStep(inBuf: AcBuf) returns (go: bool, flags: set<Flag>)
      requires inBuf.Valid() && phase.GetChunkTrailer?
      modifies this, inBuf, inBuf.buf
      ensures inBuf.Valid()
      ensures var t := TrailerTurn(old(State()), old(inBuf.Contents()));
        State() == t.job && inBuf.Contents() == t.buf && go == t.Go? && (t.Return? ==> flags == t.flags)
    {
      hide StrStrCrlf;
      if inBuf.Size() < 2 { return false, {}; }
      inBuf.Terminate();
      var crlf := StrStrCrlf(inBuf.View());
      if crlf.None? { return false, {}; }
      LineFits(inBuf.View());
      if crlf.value == 0 {
        inBuf.Drop(2);
        phase := FinishJob;
      } else {
        inBuf.Drop(crlf.value + 2);
      }
      return true, {};
    }

    /** Decodes as much of the buffer as there is; the flags say why it stopped. */
    method ProcessIncomming(inBuf: AcBuf, probe: bool) returns (flags: set<Flag>)
      requires inBuf.Valid()
      modifies this, inBuf, inBuf.buf
      ensures inBuf.Valid()
      ensures var t := Process(old(State()), old(inBuf.Contents()), probe);
        State() == t.job && inBuf.Contents() == t.buf && flags == t.flags
    {
      hide HeaderTurn, DataTurn, ChunkHeadTurn, TrailerTurn;
      ghost var goal := Process(State(), inBuf.Contents(), probe);
      while true
        invariant inBuf.Valid()
        invariant var t := Process(State(), inBuf.Contents(), probe);
          goal.job == t.job && goal.buf == t.buf && goal.flags == t.flags
        decreases inBuf.Size(), Rank(phase)
      {
        var go := true;
        match phase {
          case GetHeader => go, flags := GetHeaderStep(inBuf, probe);
          case GetChunkHead => go, flags := ChunkHeadStep(inBuf);
          case GetChunkTrailer => go, flags := TrailerStep(inBuf);
          case FinishJob =>
            phase := GetHeader;
            return {Done};
          case _ =>
            go := NewDataHandler(inBuf);
            flags := {};
        }
        if !go { return; }
      }
    }
  }

  /** The same end of a turn. */
  ghost predicate SameTurn(t: Turn, u: Turn) { t.job == u.job && t.buf == u.buf && t.Go? == u.Go? }

  /** Storing what is there, up to the rest, does not change where the turn ends; a turn with
      nothing to store ends at once. */
  lemma DataPart(j: Job, buf: string)
    ensures var n := if |buf| < j.rest then |buf| else j.rest;
      && (n > 0 ==> SameTurn(DataTurn(j.(rest := j.rest - n, stored := if j.allow then j.stored + buf[..n] else j.stored), buf[n..]), DataTurn(j, buf)))
      && (n == 0 ==> SameTurn(DataTurn(j, buf), if j.rest != 0 then Return(j, buf, {}, false)
                                                else Go(j.(phase := if j.phase.ProcessData? then FinishJob else GetChunkHead), buf, false)))
  {
    var n := if |buf| < j.rest then |buf| else j.rest;
    var stored := if j.allow then j.stored + buf[..n] else j.stored;
    assert stored + "" == stored && j.stored + "" == j.stored;
    assert buf[n..][0..] == buf[n..];
  }

  lemma EmptyHasNoLine()
    ensures StrStrCrlf("").None?
  {
  }

  lemma LineFits(s: string)
    ensures StrStrCrlf(s).Some? ==> StrStrCrlf(s).value + 2 <= |s|
  {
  }

  /** The states of a list of jobs. */
  ghost function States(js: seq<DlJob>): (r: seq<Job>)
    reads js
    ensures |r| == |js| && forall i :: 0 <= i < |js| ==> r[i] == js[i].State()
  {
    if js == [] then [] else [js[0].State()] + States(js[1..])
  }

  predicate Distinct(js: seq<DlJob>) {
    forall i, j :: 0 <= i < j < |js| ==> js[i] != js[j]
  }

  /** One call of a job's decoder; the others are not touched. */
  method ServeOne(inBuf: AcBuf, inpipe: seq<DlJob>, n: nat, probe: bool) returns (res: set<Flag>)
    requires inBuf.Valid() && Distinct(inpipe) && n < |inpipe|
    modifies inBuf, inBuf.buf, inpipe[n]
    ensures inBuf.Valid()
    ensures var t := Process(old(States(inpipe))[n], old(inBuf.Contents()), probe);
      States(inpipe) == old(States(inpipe))[n := t.job] && inBuf.Contents() == t.buf && res == t.flags
  {
    hide Process, States;
    res := inpipe[n].ProcessIncomming(inBuf, probe);
  }

  /** The data loop of ExchangeData: the front job decodes, a finished one makes way for the
      next. `n` jobs were finished; no flags means that more bytes (or jobs) are needed. */
  method ServePipeline(inBuf: AcBuf, inpipe: seq<DlJob>) returns (n: nat, flags: set<Flag>)
    requires inBuf.Valid() && Distinct(inpipe)
    modifies inBuf, inBuf.buf, inpipe
    ensures inBuf.Valid() && n <= |inpipe|
    ensures Pump(Session(old(States(inpipe)), [], old(inBuf.Contents()), {})).0 ==
      Session(States(inpipe)[n..], States(inpipe)[..n], inBuf.Contents(), flags)
  {
    n := 0;
    ghost var goal := Pump(Session(States(inpipe), [], inBuf.Contents(), {})).0;
    hide Process, States, Distinct;
    while inBuf.Size() > 0 && n < |inpipe|
      invariant inBuf.Valid() && n <= |inpipe|
      invariant goal == Pump(Session(States(inpipe)[n..], States(inpipe)[..n], inBuf.Contents(), {})).0
      decreases |inpipe| - n
    {
      ghost var was := States(inpipe);
      var res := ServeOne(inBuf, inpipe, n, false);
      AtFront(was, n, States(inpipe)[n]);
      if res == {} { return n, {}; }
      if Done !in res { return n, res; }
      n := n + 1;
    }
    return n, {};
  }

  lemma AtFront(was: seq<Job>, n: nat, j: Job)
    requires n < |was|
    ensures was[n := j][n..] == was[n..][0 := j] && was[n := j][..n] == was[..n]
    ensures was[n := j][n + 1..] == was[n..][1..] && was[n := j][..n + 1] == was[..n] + [j]
  {
  }

  /** What is still to be probed, behind the jobs that were. */
  ghost predicate Probes(goal: (seq<Job>, string, bool), js: seq<Job>, it: nat, buf: string) {
    it <= |js| && var p := Probe(js[it..], buf); goal == (js[..it] + p.0, p.1, p.2)
  }

  lemma ProbeOne(goal: (seq<Job>, string, bool), js: seq<Job>, it: nat, buf: string)
    requires it < |js| && Probes(goal, js, it, buf)
    ensures var t := Process(js[it], buf, true);
      if t.flags == {TgtChange} then Probes(goal, js[it := t.job], it + 1, t.buf) else goal == (js[it := t.job], t.buf, true)
  {
    hide Process;
    var t := Process(js[it], buf, true);
    var rest := js[it..];
    AtFront(js, it, t.job);
    if t.flags == {TgtChange} {
      assert js[..it] + ([t.job] + Probe(rest[1..], t.buf).0) == js[..it] + [t.job] + Probe(rest[1..], t.buf).0;
    } else {
      assert js[..it] + ([t.job] + rest[1..]) == js[it := t.job];
    }
  }

  lemma ProbedAll(goal: (seq<Job>, string, bool), js: seq<Job>, buf: string)
    requires Probes(goal, js, |js|, buf)
    ensures goal == (js, buf, false)
  {
    assert js[|js|..] == [] && js[..|js|] + [] == js;
  }

  /** The loop over the rest of the pipeline after a redirection. */
  method ProbeRest(inBuf: AcBuf, inpipe: seq<DlJob>, from: nat) returns (mixed: bool)
    requires inBuf.Valid() && Distinct(inpipe) && from <= |inpipe|
    modifies inBuf, inBuf.buf, inpipe
    ensures inBuf.Valid()
    ensures var (rest, left, m) := Probe(old(States(inpipe))[from..], old(inBuf.Contents()));
      States(inpipe) == old(States(inpipe))[..from] + rest && inBuf.Contents() == left && mixed == m
  {
    ghost var (rest, left, m) := Probe(States(inpipe)[from..], inBuf.Contents());
    ghost var goal := (States(inpipe)[..from] + rest, left, m);
    var it := from;
    hide Process, States, Distinct, Probe;
    while it < |inpipe|
      invariant inBuf.Valid() && it <= |inpipe|
      invariant Probes(goal, States(inpipe), it, inBuf.Contents())
    {
      ProbeOne(goal, States(inpipe), it, inBuf.Contents());
      hide Probes;
      var rr := ServeOne(inBuf, inpipe, it, true);
      if rr != {TgtChange} { return true; }
      it := it + 1;
    }
    ProbedAll(goal, States(inpipe), inBuf.Contents());
    return false;
  }

  /** What ExchangeData does with the bytes at hand: `n` jobs were finished, and `flags` is what it
      returns. */
  method ServeBuffer(inBuf: AcBuf, inpipe: seq<DlJob>) returns (n: nat, mixed: bool, flags: set<Flag>)
    requires inBuf.Valid() && Distinct(inpipe)
    modifies inBuf, inBuf.buf, inpipe
    ensures inBuf.Valid() && n <= |inpipe|
    ensures var (t, m) := DataLoop(Session(old(States(inpipe)), [], old(inBuf.Contents()), {}));
      && t.queue == States(inpipe)[n..] && t.finished == States(inpipe)[..n] && t.buf == inBuf.Contents()
      && mixed == m && flags == HandUp(t.halted, |inpipe| - n, m, t.buf == "")
  {
    hide Pump, Probe, States, Distinct;
    var res;
    n, res := ServePipeline(inBuf, inpipe);
    mixed := false;
    if TgtChange in res && n < |inpipe| {
      ghost var was := States(inpipe);
      mixed := ProbeRest(inBuf, inpipe, n + 1);
      BehindFront(was, States(inpipe), n);
    }
    flags := HandUp(res, |inpipe| - n, mixed, inBuf.Size() == 0);
  }

  lemma BehindFront(was: seq<Job>, js: seq<Job>, n: nat)
    requires n < |js| == |was| && js == was[..n + 1] + js[n + 1..]
    ensures was[n..][1..] == was[n + 1..] && js[n..] == [was[n..][0]] + js[n + 1..] && js[..n] == was[..n]
  {
  }
}
