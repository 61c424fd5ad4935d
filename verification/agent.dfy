/** The download agent's loop (CDlConn::WorkLoop in src/dlcon.cc) as a state machine: jobs move
    between the hand-over list, the queue and the pipeline of one connection. */
module Agent {
  import opened Text
  import opened Decoder
  import opened HeaderParser
  import opened RemoteStatus

  /** A host and port, as in the keys of the blacklist. */
  type Host = nat

  /** A download job: its repository's backends, the one in use, or a fixed source; how many
      redirections it may still follow. */
  datatype Task = Task(id: nat, backendMode: bool, backends: seq<Host>, current: Option<Host>, remote: Host,
                       redirs: nat, volatile: bool)

  datatype Reason = Finished | Broken | Unconfigurable | TakenElsewhere | ShutDown | Forgotten

  datatype Gone = Gone(id: nat, why: Reason)

  datatype Place = AtTop | AtSelect | Exited

  /** The loop's variables. `wire` lists the requests sent on the connection that have not been
      answered; of the callers of AddJob,
      `admitted` have checked the counter and `pending` have appended but not yet bumped it. */
  datatype State = State(
    place: Place, newJobs: seq<Task>, next: seq<Task>, active: seq<Task>, gone: seq<Gone>,
    con: Option<Host>, wire: seq<nat>, stop: bool, expectClose: bool, tolerance: int,
    blacklist: set<Host>, pipeOff: nat, proxyOff: bool, hint: int, last: int, admitted: nat, pending: nat)

  datatype Config = Config(pipelineLen: nat, retries: int, vrange: bool, proxy: Option<Host>, optionalProxy: bool)

  // ---------------------------------------------------------------- choosing a source

  function Peer(t: Task): Host { if t.current.Some? then t.current.value else t.remote }

  function FirstUsable(hosts: seq<Host>, blacklist: set<Host>): Option<Host> {
    if hosts == [] then None else if hosts[0] !in blacklist then Some(hosts[0]) else FirstUsable(hosts[1..], blacklist)
  }

  /** SetupJobConfig. */
  function Setup(t: Task, blacklist: set<Host>): (Task, bool) {
    if t.backendMode then
      if t.current.Some? && t.current.value !in blacklist then (t, true)
      else
        var b := FirstUsable(t.backends, blacklist);
        if b.Some? then (t.(current := b), true) else (t, false)
    else (t, Peer(t) !in blacklist)
  }

  lemma {:induction false} FirstUsableIs(hosts: seq<Host>, blacklist: set<Host>)
    ensures var b := FirstUsable(hosts, blacklist);
      && (b.Some? ==> b.value in hosts && b.value !in blacklist)
      && (b.None? <==> forall h :: h in hosts ==> h in blacklist)
  {
    if hosts != [] { FirstUsableIs(hosts[1..], blacklist); }
  }

  /** All the hosts the job could use as it is configured. */
  function Candidates(t: Task): set<Host> {
    if t.backendMode then (if t.current.Some? then {t.current.value} else {}) + (set h | h in t.backends)
    else {Peer(t)}
  }

  /** A job can be set up exactly if not all of its candidates are blacklisted, and then the one
      it has chosen is not; if it can be, an unlisted host in use is kept. */
  lemma SetupIff(t: Task, blacklist: set<Host>)
    ensures var (u, ok) := Setup(t, blacklist);
      && (ok <==> exists h :: h in Candidates(t) && h !in blacklist)
      && (ok ==> Peer(u) !in blacklist && Peer(u) in Candidates(t) && Candidates(u) <= Candidates(t))
      && (ok && t.current.Some? && t.current.value !in blacklist ==> u == t)
      && (!ok ==> u == t)
      && u == t.(current := u.current)
  {
    FirstUsableIs(t.backends, blacklist);
    var (u, ok) := Setup(t, blacklist);
    if ok { assert Peer(u) in Candidates(t); }
  }

  // ---------------------------------------------------------------- from the top to select

  function Ids(ts: seq<Task>): (r: seq<nat>)
    ensures |r| == |ts| && forall i :: 0 <= i < |ts| ==> r[i] == ts[i].id
  {
    if ts == [] then [] else [ts[0].id] + Ids(ts[1..])
  }

  function AllGone(ts: seq<Task>, why: Reason): (r: seq<Gone>)
    ensures |r| == |ts| && forall i :: 0 <= i < |ts| ==> r[i] == Gone(ts[i].id, why)
  {
    if ts == [] then [] else [Gone(ts[0].id, why)] + AllGone(ts[1..], why)
  }

  /** Jobs that cannot be set up are dropped: what stays, and what goes. */
  function Purge(ts: seq<Task>, blacklist: set<Host>): (seq<Task>, seq<Gone>)
    decreases |ts|
  {
    if ts == [] then ([], [])
    else
      var (kept, gone) := Purge(ts[1..], blacklist);
      var (t, ok) := Setup(ts[0], blacklist);
      if ok then ([t] + kept, gone) else (kept, [Gone(ts[0].id, Unconfigurable)] + gone)
  }

  /** Whether a request may go over this connection. */
  predicate Fits(c: Config, s: State, t: Task)
    requires s.con.Some?
  {
    Peer(t) == s.con.value || (!s.proxyOff && c.proxy == s.con)
  }

  /** One request: the front job is dropped, or does not fit, or is sent and joins the pipeline.
      Says whether to go on with the next. */
  function FillOne(c: Config, s: State): (r: (State, bool))
    requires s.con.Some? && s.next != []
    ensures r.1 ==> |r.0.next| < |s.next|
    ensures r.0.con == s.con
  {
    var (t, ok) := Setup(s.next[0], s.blacklist);
    if !ok then (s.(next := s.next[1..], gone := s.gone + [Gone(s.next[0].id, Unconfigurable)]), true)
    else if !Fits(c, s, t) then (s.(next := [t] + s.next[1..], stop := true), false)
    else
      var r := s.(next := s.next[1..], active := s.active + [t], wire := s.wire + [t.id]);
      if s.pipeOff > 0 then (r.(stop := true, pipeOff := s.pipeOff - 1), false) else (r, true)
  }

  function Fill(c: Config, s: State): State
    requires s.con.Some?
    decreases |s.next|
  {
    if s.stop || s.next == [] || |s.active| > c.pipelineLen then s
    else
      var (r, more) := FillOne(c, s);
      if more then Fill(c, r) else r
  }

  /** What the connection attempts bring: the proxy first if there is one, then, if that is
      optional, the host itself. A pooled connection may turn out to be dirty. */
  datatype Dial = Dial(proxyOk: bool, hostOk: bool, dirty: bool)

  function Connect(c: Config, s: State, d: Dial): (s': State)
    requires s.next != []
    ensures s'.con.None? ==> s'.active == s.active
  {
    var front := s.next[0];
    var r := s.(expectClose := false, wire := []);
    var useProxy := !s.proxyOff && c.proxy.Some?;
    if useProxy && d.proxyOk then if d.dirty then r else r.(con := c.proxy)
    else
      var direct := !useProxy || c.optionalProxy;
      var q := if useProxy && c.optionalProxy then r.(proxyOff := true) else r;
      if direct && d.hostOk then if d.dirty then q else q.(con := Some(Peer(front)))
      else q.(blacklist := s.blacklist + {Peer(front)})
  }

  function Take(s: State): State {
    if s.hint == s.last then s else s.(last := s.hint, next := s.newJobs + s.next, newJobs := [])
  }

  /** What is left of the old connection is cleared away, with jobs that cannot be set up. */
  function Cleared(s: State): State {
    var (kept, dropped) := Purge(s.next, s.blacklist);
    s.(gone := s.gone + AllGone(s.active, Forgotten) + dropped, active := [], next := kept, stop := false)
  }

  /** A new connection is needed. */
  function Reopen(c: Config, s: State, d: Dial): State {
    var r := Cleared(s);
    if r.next == [] then r.(place := AtSelect)
    else
      var q := Connect(c, r, d);
      if q.con.None? then q else Fill(c, q).(place := AtSelect)
  }

  /** One pass from the top of the loop to the select call, or back to the top. */
  function Prepare(c: Config, s: State, d: Dial): State {
    if s.hint < 0 && s.active == [] then s.(con := None, wire := [], place := Exited, gone := s.gone + AllGone(s.next, ShutDown), next := [])
    else
      var r := Take(s);
      if r.next == [] && r.active == [] then r.(place := AtSelect)
      else if r.con.None? then Reopen(c, r, d)
      else Fill(c, r).(place := AtSelect)
  }

  // ---------------------------------------------------------------- after ExchangeData

  /** What ExchangeData did: how many jobs at the front were finished, the others as they are
      now (redirections change their source), and the flags. */
  datatype Exchange = Exchange(finished: nat, pipe: seq<Task>, flags: set<Flag>, mixed: bool)

  /** The flag sets the decoder returns. */
  predicate FromDecoder(f: set<Flag>) {
    && Switch !in f && (Done in f ==> f == {Done})
    && (TgtChange in f ==> f == {TgtChange} || f == {TgtChange, ReconnectSoon})
    && (f == {} || f == {ReconnectSoon} || Done in f || TgtChange in f || JobBroken in f || ReconnectNow in f)
  }

  lemma {:induction false} DecoderFlags(j: Job, buf: string, probe: bool)
    ensures FromDecoder(Process(j, buf, probe).flags)
    decreases |buf|, Rank(j.phase)
  {
    hide Step, FromDecoder;
    var t := Step(j, buf, probe);
    if t.Return? {
      StepFlags(j, buf, probe);
    } else {
      DecoderFlags(t.job, t.buf, probe);
    }
  }

  lemma StepFlags(j: Job, buf: string, probe: bool)
    requires Step(j, buf, probe).Return?
    ensures FromDecoder(Step(j, buf, probe).flags)
  {
    hide HeaderTurn, DataTurn, ChunkHeadTurn, TrailerTurn;
    match j.phase
    case GetHeader => HeaderFlags(j, buf, probe);
    case GetChunkHead => LineFlags(j, buf);
    case GetChunkTrailer => LineFlags(j, buf);
    case _ =>
  }

  lemma LineFlags(j: Job, buf: string)
    ensures ChunkHeadTurn(j, buf).Return? ==> FromDecoder(ChunkHeadTurn(j, buf).flags)
    ensures TrailerTurn(j, buf).Return? ==> FromDecoder(TrailerTurn(j, buf).flags)
  {
    hide DropNewlines, ScanHex, StrStrCrlf, Blank;
  }

  lemma HeaderFlags(j: Job, buf: string, probe: bool)
    ensures HeaderTurn(j, buf, probe).Return? ==> FromDecoder(HeaderTurn(j, buf, probe).flags)
  {
    hide Parse, Atoofft, FieldOf, IsRedirect, SaysClose, SaysChunked;
    LoadLength(EMPTY_HEAD, buf);
  }

  /** Flags that say that the connection is to go on as it is, and those that end it. */
  predicate GoesOn(f: set<Flag>) { f == {Done} || f == {Switch} }
  predicate Ends(f: set<Flag>) { ReconnectNow in f || LostCon in f }

  lemma HandUpReturns(f: set<Flag>, left: nat, mixed: bool, bufEmpty: bool)
    requires FromDecoder(f) && Done !in f && (f != {} ==> left > 0)
    ensures var r := HandUp(f, left, mixed, bufEmpty);
      && r != {} && (Done in r ==> r == {Done} && left > 0) && (Switch in r ==> r == {Switch})
      && (TgtChange in r ==> r <= {TgtChange, ReconnectNow})
      && (!GoesOn(r) && !Ends(r) && TgtChange !in r ==> r == {ReconnectSoon} || JobBroken in r)
  {
  }

  /** What ExchangeData returns, by itself (select, send, read) or from the decoder. */
  predicate Returns(s: State, e: Exchange) {
    && e.finished + |e.pipe| == |s.active|
    && (s.con.None? ==> e.finished == 0 && TgtChange !in e.flags && Done !in e.flags)
    && (forall i :: 0 <= i < |e.pipe| ==>
          var t, u := e.pipe[i], s.active[e.finished + i];
          t.id == u.id && t.redirs <= u.redirs && t.volatile == u.volatile && (TgtChange !in e.flags ==> t == u.(redirs := t.redirs)))
    && (Done in e.flags ==> e.flags == {Done} && e.pipe != [])
    && (Switch in e.flags ==> e.flags == {Switch})
    && (TgtChange in e.flags ==> e.flags <= {TgtChange, ReconnectNow} && e.pipe != [] && e.pipe[0].redirs < s.active[e.finished].redirs)
    && (!GoesOn(e.flags) && !Ends(e.flags) && TgtChange !in e.flags ==>
          e.pipe != [] && (e.flags == {ReconnectSoon} || JobBroken in e.flags))
    && e.flags != {}
  }

  const ERRORS: set<Flag> := {ReconnectNow, ReconnectSoon, JobBroken, LostCon, MirrorBroken}

  function Without(ts: seq<Task>, taken: set<nat>): (seq<Task>, seq<Gone>)
    decreases |ts|
  {
    if ts == [] then ([], [])
    else
      var (kept, gone) := Without(ts[1..], taken);
      if ts[0].id in taken then (kept, [Gone(ts[0].id, TakenElsewhere)] + gone) else ([ts[0]] + kept, gone)
  }

  /** The connection is lost with requests open: tolerated a few times per host. */
  function Lose(c: Config, s: State): State
    requires s.active != []
  {
    var tol := if s.expectClose then s.tolerance else s.tolerance - 1;
    var r := s.(con := None, wire := []);
    if !s.expectClose && tol <= 0 then r.(blacklist := s.blacklist + {Peer(s.active[0])}, tolerance := c.retries)
    else r.(tolerance := tol)
  }

  /** The front job is given up; after a collision, all that others are downloading already. */
  function GiveUp(s: State, collision: bool, taken: set<nat>): State
    requires s.active != []
  {
    var gone := s.gone + [Gone(s.active[0].id, Broken)];
    if !collision then s.(active := s.active[1..], gone := gone)
    else
      var (a, g1) := Without(s.active[1..], taken);
      var (n, g2) := Without(s.next, taken);
      s.(active := a, next := n, gone := gone + g1 + g2)
  }

  function BackToQueue(s: State): State { s.(next := s.active + s.next, active := []) }

  /** The connection goes, if the flags say so. */
  function Reset(s: State, flags: set<Flag>): State {
    if ReconnectNow in flags || LostCon in flags then s.(con := None, wire := []) else s
  }

  function Failed(c: Config, s: State, flags: set<Flag>, taken: set<nat>): State {
    if s.active == [] then s
    else
      var r := if MirrorBroken in flags then s.(blacklist := s.blacklist + {Peer(s.active[0])}) else s;
      if JobBroken in flags then BackToQueue(GiveUp(r, StoreCollision in flags, taken)) else BackToQueue(r)
  }

  /** The finished jobs are gone. */
  function Pop(s: State, e: Exchange): State
    requires Returns(s, e)
  {
    s.(place := AtTop, gone := s.gone + AllGone(s.active[..e.finished], Finished), active := e.pipe,
       wire := if e.finished <= |s.wire| then s.wire[e.finished..] else [],
       expectClose := s.expectClose || ReconnectSoon in e.flags)
  }

  function Quit(s: State): State {
    s.(place := Exited, con := None, wire := [], gone := s.gone + AllGone(s.next + s.active, ShutDown), next := [], active := [])
  }

  /** A lost connection is counted, and what failed is sorted out. */
  function Recover(c: Config, s: State, f: set<Flag>, taken: set<nat>): State {
    var lost := LostCon in f && s.active != [];
    var o := if lost then Lose(c, s) else s;
    var f2 := if lost && Done !in f && !c.vrange && s.active[0].volatile then f + {JobBroken} else f;
    if Done in f2 || f2 == {Switch} then o else Failed(c, o, f2, taken)
  }

  /** Another host, or errors, or nothing in particular. */
  function Settle(c: Config, s: State, e: Exchange, taken: set<nat>): State {
    var f := e.flags;
    var q := if s.active == [] then s.(stop := false) else s;
    if s.active == [] && s.con.Some? && f * ERRORS == {} then q.(con := None, wire := [])
    else
      var p := Reset(q, f);
      if TgtChange in f then BackToQueue(p.(con := None, wire := [], pipeOff := if e.mixed then 30 else p.pipeOff))
      else Recover(c, p, f, taken)
  }

  /** From the return of ExchangeData to the top of the loop. */
  function Post(c: Config, s: State, e: Exchange, taken: set<nat>): State
    requires Returns(s, e)
  {
    if s.hint < 0 then Quit(Pop(s, e)) else Settle(c, Pop(s, e), e, taken)
  }

  // ---------------------------------------------------------------- runs

  datatype Event =
    | Check | Append(t: Task) | Bump | Stop
    | Top(d: Dial)
    | Back(e: Exchange, taken: set<nat>)

  predicate Enabled(s: State, e: Event) {
    match e
    case Check => s.hint >= 0
    case Append(_) => s.admitted > 0
    case Bump => s.pending > 0
    case Stop => true
    case Top(_) => s.place.AtTop?
    case Back(x, _) => s.place.AtSelect? && Returns(s, x)
  }

  function Apply(c: Config, s: State, e: Event): State
    requires Enabled(s, e)
  {
    match e
    case Check => s.(admitted := s.admitted + 1)
    case Append(t) => s.(newJobs := s.newJobs + [t], admitted := s.admitted - 1, pending := s.pending + 1)
    case Bump => s.(hint := s.hint + 1, pending := s.pending - 1)
    case Stop => s.(hint := -1)
    case Top(d) => Prepare(c, s, d)
    case Back(x, taken) => Post(c, s, x, taken)
  }

  function Start(c: Config): State {
    State(AtTop, [], [], [], [], None, [], false, false, c.retries, {}, 0, false, 0, -2, 0, 0)
  }

  // ---------------------------------------------------------------- no job is lost

  function GoneIds(g: seq<Gone>): (r: seq<nat>)
    ensures |r| == |g| && forall i :: 0 <= i < |g| ==> r[i] == g[i].id
  {
    if g == [] then [] else [g[0].id] + GoneIds(g[1..])
  }

  /** Every job the agent has ever been given, wherever it is now. */
  function Everywhere(s: State): multiset<nat> {
    multiset(Ids(s.newJobs)) + multiset(Ids(s.next)) + multiset(Ids(s.active)) + multiset(GoneIds(s.gone))
  }

  lemma IdsOfSum(a: seq<Task>, b: seq<Task>)
    ensures Ids(a + b) == Ids(a) + Ids(b)
  {
    hide Ids;
    assert forall i :: 0 <= i < |a + b| ==> Ids(a + b)[i] == (Ids(a) + Ids(b))[i];
  }

  lemma GoneOfSum(a: seq<Gone>, b: seq<Gone>)
    ensures GoneIds(a + b) == GoneIds(a) + GoneIds(b)
  {
    hide GoneIds;
    assert forall i :: 0 <= i < |a + b| ==> GoneIds(a + b)[i] == (GoneIds(a) + GoneIds(b))[i];
  }

  lemma GoneAll(ts: seq<Task>, why: Reason)
    ensures GoneIds(AllGone(ts, why)) == Ids(ts)
  {
    hide GoneIds, AllGone, Ids;
  }

  /** The first job is kept, or goes. */
  lemma OneMore(ts: seq<Task>, kept: seq<Task>, gone: seq<Gone>, t: Task, why: Reason)
    requires ts != [] && t.id == ts[0].id
    requires multiset(Ids(kept)) + multiset(GoneIds(gone)) == multiset(Ids(ts[1..]))
    ensures multiset(Ids([t] + kept)) + multiset(GoneIds(gone)) == multiset(Ids(ts))
    ensures multiset(Ids(kept)) + multiset(GoneIds([Gone(ts[0].id, why)] + gone)) == multiset(Ids(ts))
  {
    hide Ids, GoneIds;
    var x := [ts[0].id];
    assert Ids(ts) == x + Ids(ts[1..]);
    assert Ids([t] + kept) == x + Ids(kept);
    assert GoneIds([Gone(ts[0].id, why)] + gone) == x + GoneIds(gone);
  }

  lemma {:induction false} PurgeKeeps(ts: seq<Task>, blacklist: set<Host>)
    ensures var (kept, gone) := Purge(ts, blacklist);
      multiset(Ids(kept)) + multiset(GoneIds(gone)) == multiset(Ids(ts))
    decreases |ts|
  {
    hide Setup, Ids, GoneIds;
    if ts == [] {
      assert Ids([]) == [] && GoneIds([]) == [];
    } else {
      PurgeKeeps(ts[1..], blacklist);
      SetupIff(ts[0], blacklist);
      var (kept, gone) := Purge(ts[1..], blacklist);
      OneMore(ts, kept, gone, Setup(ts[0], blacklist).0, Unconfigurable);
    }
  }

  lemma {:induction false} WithoutKeeps(ts: seq<Task>, taken: set<nat>)
    ensures var (kept, gone) := Without(ts, taken);
      multiset(Ids(kept)) + multiset(GoneIds(gone)) == multiset(Ids(ts))
    decreases |ts|
  {
    hide Ids, GoneIds;
    if ts == [] {
      assert Ids([]) == [] && GoneIds([]) == [];
    } else {
      WithoutKeeps(ts[1..], taken);
      var (kept, gone) := Without(ts[1..], taken);
      OneMore(ts, kept, gone, ts[0], TakenElsewhere);
    }
  }
}
