/** The download agent as the object it is in src/dlcon.cc: WorkLoop and its inner loops work on
    the lists in place, and do what the functions in Agent say. */
module DlAgent {
  import opened Text
  import opened Decoder
  import opened Agent
  import opened Conservation

  /** tDlJob::SetupJobConfig: keep the backend in use, or look for one that is not listed. */
  method SetupJobConfig(t: Task, blacklist: set<Host>) returns (u: Task, ok: bool)
    ensures (u, ok) == Setup(t, blacklist)
  {
    if !t.backendMode { return t, Peer(t) !in blacklist; }
    if t.current.Some? && t.current.value !in blacklist { return t, true; }
    var i := 0;
    while i < |t.backends|
      invariant 0 <= i <= |t.backends|
      invariant FirstUsable(t.backends[i..], blacklist) == FirstUsable(t.backends, blacklist)
    {
      if t.backends[i] !in blacklist {
        return t.(current := Some(t.backends[i])), true;
      }
      assert t.backends[i..][1..] == t.backends[i + 1..];
      i := i + 1;
    }
    return t, false;
  }

  /** Without, as the loop that erases list entries. */
  method DropTaken(list: seq<Task>, taken: set<nat>) returns (kept: seq<Task>, gone: seq<Gone>)
    ensures (kept, gone) == Without(list, taken)
  {
    hide Without;
    kept, gone := [], [];
    var i := 0;
    assert list[0..] == list;
    while i < |list|
      invariant 0 <= i <= |list|
      invariant Without(list, taken).0 == kept + Without(list[i..], taken).0
      invariant Without(list, taken).1 == gone + Without(list[i..], taken).1
    {
      NextTaken(list, i, taken, kept, gone);
      if list[i].id in taken {
        gone := gone + [Gone(list[i].id, TakenElsewhere)];
      } else {
        kept := kept + [list[i]];
      }
      i := i + 1;
    }
    NoneTaken(list[i..], taken, kept, gone);
  }

  lemma NextTaken(list: seq<Task>, i: nat, taken: set<nat>, kept: seq<Task>, gone: seq<Gone>)
    requires i < |list|
    ensures var (k, g), (k1, g1) := Without(list[i..], taken), Without(list[i + 1..], taken);
      && kept + k == (if list[i].id in taken then kept else kept + [list[i]]) + k1
      && gone + g == (if list[i].id in taken then gone + [Gone(list[i].id, TakenElsewhere)] else gone) + g1
  {
    assert list[i..][1..] == list[i + 1..] && list[i..][0] == list[i];
  }

  lemma NoneTaken(list: seq<Task>, taken: set<nat>, kept: seq<Task>, gone: seq<Gone>)
    requires list == []
    ensures kept + Without(list, taken).0 == kept && gone + Without(list, taken).1 == gone
  {
  }

  class CDlConn {
    var place: Place
    var newJobs: seq<Task>
    var next: seq<Task>
    var active: seq<Task>
    var gone: seq<Gone>
    var con: Option<Host>
    var wire: seq<nat>
    var stop: bool
    var expectClose: bool
    var tolerance: int
    var blacklist: set<Host>
    var pipeOff: nat
    var proxyOff: bool
    var hint: int
    var last: int
    var admitted: nat
    var pending: nat

    function Snapshot(): State
      reads this
    {
      Agent.State.State(place, newJobs, next, active, gone, con, wire, stop, expectClose, tolerance, blacklist, pipeOff, proxyOff,
                  hint, last, admitted, pending)
    }

    constructor (c: Config)
      ensures Snapshot() == Start(c)
    {
      place, newJobs, next, active, gone, con, wire := AtTop, [], [], [], [], None, [];
      stop, expectClose, tolerance, blacklist, pipeOff, proxyOff := false, false, c.retries, {}, 0, false;
      hint, last, admitted, pending := 0, -2, 0, 0;
    }

    /** With nobody else in between. */
    method AddJob(t: Task) returns (ok: bool)
      modifies this
      ensures ok <==> old(hint) >= 0
      ensures Snapshot() == if ok then old(Snapshot()).(newJobs := old(newJobs) + [t], hint := old(hint) + 1) else old(Snapshot())
    {
      if hint < 0 { return false; }
      newJobs := newJobs + [t];
      hint := hint + 1;
      return true;
    }

    /** The loop over the queue that drops what cannot be set up. */
    method PurgeNext()
      modifies `next, `gone
      ensures var (kept, dropped) := Purge(old(next), blacklist); next == kept && gone == old(gone) + dropped
    {
      hide Setup;
      ghost var list, before := next, gone;
      var i := 0;
      ghost var done := 0;
      while i < |next|
        invariant 0 <= i <= |next| && 0 <= done <= |list| && next[i..] == list[done..]
        invariant var (k, g) := Purge(list[done..], blacklist);
          var (kept, dropped) := Purge(list, blacklist);
          kept == next[..i] + k && before + dropped == gone + g
        decreases |list| - done
      {
        assert next[i..][0] == list[done..][0] && next[i..][1..] == list[done..][1..] == list[done + 1..];
        var (t, ok) := Setup(next[i], blacklist);
        if ok {
          next := next[i := t];
          assert next[..i + 1] == next[..i] + [t] && next[i + 1..] == list[done + 1..];
          i := i + 1;
        } else {
          gone := gone + [Gone(next[i].id, Unconfigurable)];
          next := next[..i] + next[i + 1..];
        }
        done := done + 1;
      }
      assert next[..i] == next && list[done..] == [];
    }

    method Dialling(c: Config, d: Dial)
      requires next != []
      modifies `con, `wire, `expectClose, `proxyOff, `blacklist
      ensures Snapshot() == Connect(c, old(Snapshot()), d)
    {
      expectClose, wire := false, [];
      var useProxy := !proxyOff && c.proxy.Some?;
      var got: Option<Host> := None;
      if useProxy {
        if d.proxyOk { got := c.proxy; }
      } else if d.hostOk {
        got := Some(Peer(next[0]));
      }
      if got.None? && useProxy && c.optionalProxy {
        proxyOff := true;
        if d.hostOk { got := Some(Peer(next[0])); }
      }
      if got.None? {
        blacklist := blacklist + {Peer(next[0])};
      } else if !d.dirty {
        con := got;
      }
    }

    /** One request: see FillOne. */
    method AppendOne(c: Config) returns (more: bool)
      requires con.Some? && next != []
      modifies `next, `active, `gone, `wire, `stop, `pipeOff
      ensures (Snapshot(), more) == FillOne(c, old(Snapshot()))
      ensures |next| < |old(next)| || (|next| == |old(next)| && !more)
    {
      hide Setup, Fits;
      var (front, ok) := Setup(next[0], blacklist);
      if !ok {
        gone := gone + [Gone(next[0].id, Unconfigurable)];
        next := next[1..];
        return true;
      }
      if !Fits(c, Snapshot(), front) {
        next := [front] + next[1..];
        stop := true;
        return false;
      }
      wire := wire + [front.id];
      active, next := active + [front], next[1..];
      if pipeOff > 0 {
        stop, pipeOff := true, pipeOff - 1;
        return false;
      }
      return true;
    }

    /** The loop that appends requests and moves their jobs to the pipeline. */
    method FillPipeline(c: Config)
      requires con.Some?
      modifies `next, `active, `gone, `wire, `stop, `pipeOff
      ensures Snapshot() == Fill(c, old(Snapshot()))
    {
      hide FillOne;
      ghost var goal := Fill(c, Snapshot());
      var more := true;
      while more && !stop && next != [] && |active| <= c.pipelineLen
        invariant con.Some? && goal == if more then Fill(c, Snapshot()) else Snapshot()
        decreases |next|, more
      {
        more := AppendOne(c);
      }
    }

    method ClearAway()
      modifies `active, `next, `gone, `stop
      ensures Snapshot() == Cleared(old(Snapshot()))
    {
      hide Purge, AllGone;
      gone := gone + AllGone(active, Forgotten);
      active := [];
      stop := false;
      PurgeNext();
    }

    /** What happens when there is no connection. */
    method Reconnect(c: Config, d: Dial)
      requires con.None?
      modifies `con, `wire, `stop, `blacklist, `pipeOff, `next, `active, `gone, `proxyOff, `expectClose, `place
      ensures Snapshot() == Reopen(c, old(Snapshot()), d)
    {
      hide Fill, Connect, Cleared;
      ClearAway();
      if next == [] {
        place := AtSelect;
        return;
      }
      Dialling(c, d);
      if con.None? { return; }
      FillPipeline(c);
      place := AtSelect;
    }

    /** Jobs handed over are taken, if the counter says that there may be some. */
    method TakeNew()
      modifies `next, `newJobs, `last
      ensures Snapshot() == Take(old(Snapshot()))
    {
      if hint != last {
        last := hint;
        next, newJobs := newJobs + next, [];
      }
    }

    /** One pass of the loop up to the select call, or back to its top. */
    method Pass(c: Config, d: Dial)
      modifies `con, `wire, `stop, `blacklist, `pipeOff, `next, `active, `gone, `proxyOff, `expectClose, `place, `newJobs, `last
      ensures Snapshot() == Prepare(c, old(Snapshot()), d)
    {
      hide Fill, Reopen, AllGone, Take;
      if hint < 0 && active == [] {
        con, wire, place := None, [], Exited;
        gone, next := gone + AllGone(next, ShutDown), [];
        return;
      }
      TakeNew();
      if next == [] && active == [] {
        place := AtSelect;
      } else if con.None? {
        Reconnect(c, d);
      } else {
        FillPipeline(c);
        place := AtSelect;
      }
    }

    method GiveUpFront(collision: bool, taken: set<nat>)
      requires active != []
      modifies `active, `next, `gone
      ensures Snapshot() == GiveUp(old(Snapshot()), collision, taken)
    {
      gone := gone + [Gone(active[0].id, Broken)];
      active := active[1..];
      if collision {
        var g1, g2;
        active, g1 := DropTaken(active, taken);
        next, g2 := DropTaken(next, taken);
        gone := gone + g1 + g2;
      }
    }

    method ConnectionLost(c: Config)
      requires active != []
      modifies `con, `wire, `tolerance, `blacklist
      ensures Snapshot() == Lose(c, old(Snapshot()))
    {
      if !expectClose {
        tolerance := tolerance - 1;
        if tolerance <= 0 {
          blacklist := blacklist + {Peer(active[0])};
          tolerance := c.retries;
        }
      }
      con, wire := None, [];
    }

    /** The finished jobs leave the pipeline. */
    method PopFinished(e: Exchange)
      requires Returns(Snapshot(), e)
      modifies `place, `gone, `active, `wire, `expectClose
      ensures Snapshot() == Pop(old(Snapshot()), e)
    {
      hide Returns, AllGone;
      Bounds(Snapshot(), e);
      gone := gone + AllGone(active[..e.finished], Finished);
      active := e.pipe;
      wire := if e.finished <= |wire| then wire[e.finished..] else [];
      place := AtTop;
      expectClose := expectClose || ReconnectSoon in e.flags;
    }

    /** From the return of ExchangeData to the end of the loop's body. */
    method AfterExchange(c: Config, e: Exchange, taken: set<nat>)
      requires Returns(Snapshot(), e)
      modifies `con, `wire, `stop, `tolerance, `blacklist, `pipeOff, `next, `active, `gone, `place, `expectClose
      ensures Snapshot() == Post(c, old(Snapshot()), e, taken)
    {
      hide Pop, Settle, Returns, Quit;
      PopFinished(e);
      PopHint(old(Snapshot()), e);
      if hint < 0 { QuitLoop(); } else { Settling(c, e, taken); }
    }

    method QuitLoop()
      modifies `con, `wire, `next, `active, `gone, `place
      ensures Snapshot() == Quit(old(Snapshot()))
    {
      hide AllGone;
      gone := gone + AllGone(next + active, ShutDown);
      next, active, con, wire, place := [], [], None, [], Exited;
    }

    static lemma PopHint(s: State, e: Exchange)
      requires Returns(s, e)
      ensures Pop(s, e).hint == s.hint
    {
    }

    static lemma Bounds(s: State, e: Exchange)
      requires Returns(s, e)
      ensures e.finished <= |s.active|
    {
    }

    /** The errors at the end of the loop's body: the jobs go back to the queue. */
    method HandleFailure(c: Config, flags: set<Flag>, taken: set<nat>)
      modifies `blacklist, `next, `active, `gone
      ensures Snapshot() == Failed(c, old(Snapshot()), flags, taken)
    {
      hide GiveUp;
      if active == [] { return; }
      if MirrorBroken in flags {
        blacklist := blacklist + {Peer(active[0])};
      }
      if JobBroken in flags {
        GiveUpFront(StoreCollision in flags, taken);
      }
      next, active := active + next, [];
    }

    method Recovering(c: Config, f: set<Flag>, taken: set<nat>)
      modifies `con, `wire, `tolerance, `blacklist, `next, `active, `gone
      ensures Snapshot() == Recover(c, old(Snapshot()), f, taken)
    {
      hide Lose, Failed;
      var flags := f;
      if LostCon in flags && active != [] {
        if Done !in flags && !c.vrange && active[0].volatile {
          flags := flags + {JobBroken};
        }
        ConnectionLost(c);
      }
      if Done !in flags && flags != {Switch} {
        HandleFailure(c, flags, taken);
      }
    }

    method Settling(c: Config, e: Exchange, taken: set<nat>)
      modifies `con, `wire, `stop, `tolerance, `blacklist, `pipeOff, `next, `active, `gone
      ensures Snapshot() == Settle(c, old(Snapshot()), e, taken)
    {
      hide Recover, BackToQueue, Reset;
      var flags := e.flags;
      if active == [] {
        stop := false;
        if con.Some? && flags * ERRORS == {} {
          con, wire := None, [];
          return;
        }
      }
      ResetCon(flags);
      if TgtChange in flags {
        Requeue(e.mixed);
      } else {
        Recovering(c, flags, taken);
      }
    }

    method ResetCon(flags: set<Flag>)
      modifies `con, `wire
      ensures Snapshot() == Reset(old(Snapshot()), flags)
    {
      if ReconnectNow in flags || LostCon in flags {
        con, wire := None, [];
      }
    }

    /** After a redirection the connection is given back, and the jobs start over. */
    method Requeue(mixed: bool)
      modifies `con, `wire, `pipeOff, `next, `active
      ensures var p := old(Snapshot());
        Snapshot() == BackToQueue(p.(con := None, wire := [], pipeOff := if mixed then 30 else p.pipeOff))
    {
      con, wire := None, [];
      if mixed { pipeOff := 30; }
      next, active := active + next, [];
    }

    /** The outer loop, with what the world does at each step. */
    method WorkLoop(c: Config, world: seq<Event>)
      requires Possible(c, Snapshot(), world)
      modifies this
      ensures Snapshot() == Run(c, old(Snapshot()), world)
    {
      hide Prepare, Post, Returns;
      var i := 0;
      ghost var goal := Run(c, Snapshot(), world);
      assert world[0..] == world;
      while i < |world|
        invariant 0 <= i <= |world|
        invariant Possible(c, Snapshot(), world[i..]) && Run(c, Snapshot(), world[i..]) == goal
      {
        ghost var s := Snapshot();
        ghost var t := Apply(c, s, world[i..][0]);
        assert Possible(c, t, world[i..][1..]) && Run(c, t, world[i..][1..]) == goal;
        match world[i] {
          case Check => admitted := admitted + 1;
          case Append(t) => newJobs, admitted, pending := newJobs + [t], admitted - 1, pending + 1;
          case Bump => hint, pending := hint + 1, pending - 1;
          case Stop => hint := -1;
          case Top(d) => Pass(c, d);
          case Back(e, taken) => AfterExchange(c, e, taken);
        }
        assert Snapshot() == t && world[i..][1..] == world[i + 1..];
        i := i + 1;
      }
      assert world[i..] == [];
    }
  }
}
