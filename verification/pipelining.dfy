/** Which job decodes which answer, and whether a job that was handed over is noticed. */
module Pipelining {
  import opened Text
  import opened Decoder
  import opened Agent
  import opened Conservation

  /** The jobs in the pipeline are, in order, those whose requests are out and unanswered. */
  predicate Matched(s: State) { s.wire == Ids(s.active) }

  lemma {:induction false} FillMatches(c: Config, s: State)
    requires s.con.Some? && Matched(s)
    ensures Matched(Fill(c, s))
    decreases |s.next|
  {
    if !(s.stop || s.next == [] || |s.active| > c.pipelineLen) {
      SentMatches(c, s);
      var (r, more) := FillOne(c, s);
      if more { FillMatches(c, r); }
    }
  }

  lemma SentMatches(c: Config, s: State)
    requires s.con.Some? && s.next != [] && Matched(s)
    ensures Matched(FillOne(c, s).0)
  {
    hide Setup, Fits, Ids;
    var t := Setup(s.next[0], s.blacklist).0;
    IdsOfSum(s.active, [t]);
    assert Ids([t]) == [t.id];
  }

  /** Sending requests keeps the two in step. */
  lemma PrepareMatches(c: Config, s: State, d: Dial)
    requires Tidy(s) && Matched(s) && s.place.AtTop?
    ensures Matched(Prepare(c, s, d))
  {
    hide Fill, Cleared, AllGone, NoneForgotten, Ids;
    assert Ids([]) == [];
    var r := Take(s);
    if s.hint < 0 && s.active == [] {
    } else if r.next == [] && r.active == [] {
    } else if r.con.None? {
      ClearedTidy(r);
      var q := Cleared(r);
      if q.next != [] {
        var u := Connect(c, q, d);
        if u.con.Some? { FillMatches(c, u); }
      }
    } else {
      FillMatches(c, r);
    }
  }

  lemma PopMatches(s: State, e: Exchange)
    requires Matched(s) && Returns(s, e)
    ensures Matched(Pop(s, e))
  {
    hide Ids;
    SameIds(s, e);
    IdsSplit(s.active, e.finished);
  }

  lemma FailedEmpties(c: Config, s: State, flags: set<Flag>, taken: set<nat>)
    ensures var t := Failed(c, s, flags, taken); t.active == [] && t.wire == s.wire && t.con == s.con
  {
  }

  /** The one way to lose step: jobs go back to the queue, and the connection on which their
      answers are still to come is kept. */
  predicate LosesStep(e: Exchange) {
    e.pipe != [] && !GoesOn(e.flags) && !Ends(e.flags) && TgtChange !in e.flags
  }

  lemma PostMatchesIff(c: Config, s: State, e: Exchange, taken: set<nat>)
    requires Tidy(s) && Matched(s) && Returns(s, e) && s.hint >= 0
    ensures Matched(Post(c, s, e, taken)) <==> !LosesStep(e)
    ensures LosesStep(e) ==> var t := Post(c, s, e, taken); t.con == s.con && t.con.Some? && t.active == [] && t.wire == Ids(e.pipe) != []
  {
    hide Settle, Ids, NoneForgotten, Matched, AllGone;
    PopMatches(s, e);
    SettleMatchesIff(c, Pop(s, e), e, taken);
  }

  lemma SettleMatchesIff(c: Config, r: State, e: Exchange, taken: set<nat>)
    requires Matched(r) && r.active == e.pipe && (r.con.None? ==> r.active == [] && TgtChange !in e.flags && Done !in e.flags)
    requires Done in e.flags ==> e.flags == {Done} && e.pipe != []
    requires Switch in e.flags ==> e.flags == {Switch}
    ensures var t := Settle(c, r, e, taken); Matched(t) <==> !LosesStep(e)
    ensures LosesStep(e) ==> var t := Settle(c, r, e, taken); t.con == r.con && t.con.Some? && t.active == [] && t.wire == Ids(e.pipe) != []
  {
    hide Failed, Ids;
    var f := e.flags;
    var q := if r.active == [] then r.(stop := false) else r;
    if !(r.active == [] && r.con.Some? && f * ERRORS == {}) {
      var p := Reset(q, f);
      if TgtChange !in f {
        var lost := LostCon in f && p.active != [];
        var o := if lost then Lose(c, p) else p;
        var f2 := if lost && Done !in f && !c.vrange && p.active[0].volatile then f + {JobBroken} else f;
        FailedEmpties(c, o, f2, taken);
        assert !lost ==> f2 == f;
        assert Ids(o.active) == [] <==> o.active == [];
      }
    }
    assert Ids([]) == [];
  }

  predicate Orderly(e: Event) { e.Back? ==> !LosesStep(e.e) }

  ghost predicate AllOrderly(es: seq<Event>) { forall i :: 0 <= i < |es| ==> Orderly(es[i]) }

  /** Pipelining match, over every run in which jobs only go back to the queue together with the
      connection: on each connection, the i-th answer is decoded by the job of the i-th request. */
  lemma {:induction false} AnswersMatch(c: Config, s: State, es: seq<Event>)
    requires Tidy(s) && Matched(s) && Possible(c, s, es) && AllOrderly(es)
    ensures Matched(Run(c, s, es))
    decreases |es|
  {
    hide Apply, Tidy, Matched;
    if es != [] {
      StepTidy(c, s, es[0]);
      StepMatches(c, s, es[0]);
      AnswersMatch(c, Apply(c, s, es[0]), es[1..]);
    }
  }

  lemma StepMatches(c: Config, s: State, e: Event)
    requires Tidy(s) && Matched(s) && Enabled(s, e) && Orderly(e)
    ensures Matched(Apply(c, s, e))
  {
    hide Prepare, Settle, Returns, LosesStep;
    match e
    case Top(d) => PrepareMatches(c, s, d);
    case Back(x, taken) => if s.hint >= 0 { PostMatchesIff(c, s, x, taken); } else { assert Ids([]) == []; }
    case _ =>
  }

  // ---------------------------------------------------------------- a run that loses step

  predicate Goes(c: Config, s: State, e: Event, t: State) { Enabled(s, e) && Apply(c, s, e) == t }

  const PLAIN := Config(10, 5, true, None, false)
  const ONE := Task(1, false, [], None, 7, 5, false)
  const TWO := Task(2, false, [], None, 7, 5, false)
  const DIAL := Dial(true, true, false)

  /** With an interim answer that announces the end of the connection, the job goes back to the
      queue. The one handed over next is sent first, and gets the answer meant for the other. */
  lemma WrongAnswer()
    ensures
      var s0 := Start(PLAIN).(newJobs := [ONE], hint := 1);
      var s1 := s0.(place := AtSelect, newJobs := [], active := [ONE], con := Some(7), wire := [1], last := 1);
      var s2 := s1.(place := AtTop, next := [ONE], active := [], expectClose := true);
      var s3 := s2.(newJobs := [TWO], hint := 2);
      var s4 := s3.(place := AtSelect, newJobs := [], next := [], active := [TWO, ONE], wire := [1, 2, 1], last := 2);
      && Goes(PLAIN, s0, Top(DIAL), s1)
      && Goes(PLAIN, s1, Back(Exchange(0, [ONE], {ReconnectSoon}, false), {}), s2)
      && Goes(PLAIN, s3, Top(DIAL), s4)
      && s4.wire[0] == 1 && s4.active[0].id == 2
  {
    var s0 := Start(PLAIN).(newJobs := [ONE], hint := 1);
    var s1 := s0.(place := AtSelect, newJobs := [], active := [ONE], con := Some(7), wire := [1], last := 1);
    FirstTop(s0, s1);
    var s2 := s1.(place := AtTop, next := [ONE], active := [], expectClose := true);
    assert Goes(PLAIN, s1, Back(Exchange(0, [ONE], {ReconnectSoon}, false), {}), s2);
    var s3 := s2.(newJobs := [TWO], hint := 2);
    var s4 := s3.(place := AtSelect, newJobs := [], next := [], active := [TWO, ONE], wire := [1, 2, 1], last := 2);
    SecondTop(s3, s4);
  }

  lemma FirstTop(s0: State, s1: State)
    requires s0 == Start(PLAIN).(newJobs := [ONE], hint := 1)
    requires s1 == s0.(place := AtSelect, newJobs := [], active := [ONE], con := Some(7), wire := [1], last := 1)
    ensures Goes(PLAIN, s0, Top(DIAL), s1)
  {
    var t := Take(s0);
    assert t.next == [ONE];
    assert Purge([ONE], {}) == ([ONE], []) by { assert Purge([], {}) == ([], []); }
    assert t.gone + AllGone(t.active, Forgotten) + [] == [];
    var q := Connect(PLAIN, t, DIAL);
    var (r, more) := FillOne(PLAIN, q);
    assert r == q.(next := [], active := [ONE], wire := [1]) && more;
    assert Fill(PLAIN, q) == r;
  }

  lemma SecondTop(s3: State, s4: State)
    requires s3.place.AtTop? && s3.newJobs == [TWO] && s3.next == [ONE] && s3.active == [] && s3.con == Some(7) && s3.wire == [1]
    requires !s3.stop && s3.pipeOff == 0 && s3.blacklist == {} && s3.hint == 2 && s3.last == 1
    requires s4 == s3.(place := AtSelect, newJobs := [], next := [], active := [TWO, ONE], wire := [1, 2, 1], last := 2)
    ensures Goes(PLAIN, s3, Top(DIAL), s4)
  {
    var t := Take(s3);
    assert t.next == [TWO, ONE];
    var r1 := FillOne(PLAIN, t).0;
    assert r1 == t.(next := [ONE], active := [TWO], wire := [1, 2]) && FillOne(PLAIN, t).1;
    var r2 := FillOne(PLAIN, r1).0;
    assert r2 == r1.(next := [], active := [TWO, ONE], wire := [1, 2, 1]) && FillOne(PLAIN, r1).1;
    assert Fill(PLAIN, r2) == r2;
    assert Fill(PLAIN, r1) == r2;
    assert Fill(PLAIN, t) == r2;
  }

  // ---------------------------------------------------------------- handing over

  /** The counter is ahead of the mark whenever a job waits whose caller is done. */
  predicate Noticed(s: State) {
    0 <= s.hint && s.last <= s.hint && (s.newJobs != [] ==> s.pending > 0 || s.last < s.hint)
  }

  lemma {:induction false} FillLeaves(c: Config, s: State)
    requires s.con.Some?
    ensures var t := Fill(c, s);
      t.newJobs == s.newJobs && t.hint == s.hint && t.last == s.last && t.admitted == s.admitted && t.pending == s.pending
    decreases |s.next|
  {
    if !(s.stop || s.next == [] || |s.active| > c.pipelineLen) {
      var (r, more) := FillOne(c, s);
      if more { FillLeaves(c, r); }
    }
  }

  /** The hand-over list and what its callers do are not touched. */
  predicate SameHandover(s: State, t: State) {
    t.newJobs == s.newJobs && t.hint == s.hint && t.last == s.last && t.admitted == s.admitted && t.pending == s.pending
  }

  lemma ReopenLeaves(c: Config, s: State, d: Dial)
    ensures SameHandover(s, Reopen(c, s, d))
  {
    hide Fill, Cleared;
    assert SameHandover(s, Cleared(s)) by { ClearedLeaves(s); }
    var q := Cleared(s);
    if q.next != [] {
      var u := Connect(c, q, d);
      if u.con.Some? { FillLeaves(c, u); }
    }
  }

  lemma ClearedLeaves(s: State)
    ensures SameHandover(s, Cleared(s))
  {
    hide Purge, AllGone;
  }

  lemma PrepareTakes(c: Config, s: State, d: Dial)
    requires Noticed(s)
    ensures var t := Prepare(c, s, d); Noticed(t) && (t.newJobs != [] ==> t.pending > 0)
  {
    hide Fill, Reopen;
    var r := Take(s);
    assert Noticed(r) && (r.newJobs != [] ==> r.pending > 0);
    if r.next == [] && r.active == [] {
    } else if r.con.None? {
      ReopenLeaves(c, r, d);
    } else {
      FillLeaves(c, r);
    }
  }

  lemma FailedLeaves(c: Config, s: State, flags: set<Flag>, taken: set<nat>)
    ensures SameHandover(s, Failed(c, s, flags, taken))
  {
    hide Without;
  }

  lemma SettleLeaves(c: Config, s: State, e: Exchange, taken: set<nat>)
    ensures SameHandover(s, Settle(c, s, e, taken))
  {
    hide Failed;
    var f := e.flags;
    var q := if s.active == [] then s.(stop := false) else s;
    if !(s.active == [] && s.con.Some? && f * ERRORS == {}) {
      var p := Reset(q, f);
      if TgtChange !in f {
        var lost := LostCon in f && p.active != [];
        var o := if lost then Lose(c, p) else p;
        var f2 := if lost && Done !in f && !c.vrange && p.active[0].volatile then f + {JobBroken} else f;
        FailedLeaves(c, o, f2, taken);
      }
    }
  }

  /** No call of AddJob is between its check of the counter and its bump. */
  predicate NobodyAdds(s: State) { s.admitted == 0 && s.pending == 0 }

  /** Every SignalStop of the run comes while no call of AddJob is under way. */
  ghost predicate StopsApart(c: Config, s: State, es: seq<Event>)
    requires Possible(c, s, es)
    decreases |es|
  {
    es == [] || ((es[0].Stop? ==> NobodyAdds(s)) && StopsApart(c, Apply(c, s, es[0]), es[1..]))
  }

  predicate Stopped(s: State) { s.hint < 0 && NobodyAdds(s) }

  /** No job handed over is overlooked, whenever the calls of AddJob interleave with the loop: the
      next pass takes all of those whose calls have ended, or the agent has been told to stop. */
  lemma {:induction false} NoneOverlooked(c: Config, s: State, es: seq<Event>)
    requires (Noticed(s) || Stopped(s)) && Possible(c, s, es) && StopsApart(c, s, es)
    ensures var t := Run(c, s, es);
      Stopped(t) || (Noticed(t) && (es != [] && es[|es| - 1].Top? && t.newJobs != [] ==> t.pending > 0))
    decreases |es|
  {
    hide Prepare, Post;
    if es != [] {
      var e := es[0];
      var m := Apply(c, s, e);
      assert Stopped(m) || (Noticed(m) && (e.Top? && m.newJobs != [] ==> m.pending > 0)) by {
        if Stopped(s) { StepStaysStopped(c, s, e); } else { StepNotices(c, s, e); }
      }
      if |es| > 1 { assert es[1..][|es| - 2] == es[|es| - 1]; }
      NoneOverlooked(c, m, es[1..]);
    }
  }

  lemma StepNotices(c: Config, s: State, e: Event)
    requires Noticed(s) && Enabled(s, e) && (e.Stop? ==> NobodyAdds(s))
    ensures var m := Apply(c, s, e); Stopped(m) || (Noticed(m) && (e.Top? && m.newJobs != [] ==> m.pending > 0))
  {
    hide Prepare, Settle, Returns;
    match e
    case Top(d) => PrepareTakes(c, s, d);
    case Back(x, taken) => SettleLeaves(c, Pop(s, x), x, taken);
    case _ =>
  }

  // ---------------------------------------------------------------- being told to stop

  lemma StepStaysStopped(c: Config, s: State, e: Event)
    requires Stopped(s) && Enabled(s, e)
    ensures Stopped(Apply(c, s, e))
  {
    hide Returns, Fill, Reopen;
    match e
    case Top(d) => if s.active != [] { PrepareLeaves(c, s, d); }
    case _ =>
  }

  lemma PrepareLeaves(c: Config, s: State, d: Dial)
    requires !(s.hint < 0 && s.active == [])
    ensures var t := Prepare(c, s, d); t.hint == s.hint && t.admitted == s.admitted && t.pending == s.pending
  {
    hide Fill, Reopen;
    var r := Take(s);
    if r.next == [] && r.active == [] {
    } else if r.con.None? {
      ReopenLeaves(c, r, d);
    } else {
      FillLeaves(c, r);
    }
  }

  lemma PrepareGoesOn(c: Config, s: State, d: Dial)
    requires s.place.AtTop? && !(s.hint < 0 && s.active == [])
    ensures !Prepare(c, s, d).place.Exited?
  {
    hide Fill, Purge, AllGone;
  }

  lemma {:induction false} StaysStopped(c: Config, s: State, es: seq<Event>)
    requires Stopped(s) && Possible(c, s, es)
    ensures Stopped(Run(c, s, es))
    decreases |es|
  {
    hide Apply, Enabled, Stopped;
    if es != [] {
      StepStaysStopped(c, s, es[0]);
      StaysStopped(c, Apply(c, s, es[0]), es[1..]);
    }
  }

  /** Whatever happens from here on, the agent goes on being told to stop. */
  ghost predicate StopSticks(c: Config, s: State) {
    forall es :: Possible(c, s, es) ==> Run(c, s, es).hint < 0
  }

  /** A stop signal sticks exactly if no call of AddJob is under way when it is given: the bump of
      such a call takes it back. */
  lemma StopSticksIff(c: Config, s: State)
    requires s.hint == -1
    ensures StopSticks(c, s) <==> NobodyAdds(s)
  {
    hide Run, Possible;
    if NobodyAdds(s) {
      forall es | Possible(c, s, es) ensures Run(c, s, es).hint < 0 { StaysStopped(c, s, es); }
    } else {
      var es := BumpedBack(c, s);
    }
  }

  lemma BumpedBack(c: Config, s: State) returns (es: seq<Event>)
    requires s.hint == -1 && !NobodyAdds(s)
    ensures Possible(c, s, es) && Run(c, s, es).hint == 0
  {
    if s.pending > 0 {
      es := [Bump];
    } else {
      var m := s.(newJobs := s.newJobs + [ONE], admitted := s.admitted - 1, pending := s.pending + 1);
      es := [Append(ONE), Bump];
      assert Apply(c, s, es[0]) == m && es[1..] == [Bump];
      assert Possible(c, m, [Bump]) && Run(c, m, [Bump]).hint == 0 by { assert [Bump][1..] == []; }
    }
  }

  /** A signal that sticks ends the loop the next time it comes back from ExchangeData, or at the
      top if no request is out, and then no job is left in its queue or pipeline. */
  lemma {:induction false} StopEnds(c: Config, s: State, es: seq<Event>)
    requires Stopped(s) && Possible(c, s, es)
    requires if s.place.Exited? then s.next == [] && s.active == [] else exists i :: 0 <= i < |es| && es[i].Back?
    ensures var t := Run(c, s, es); t.place.Exited? && t.next == [] && t.active == []
    decreases |es|
  {
    hide Returns, Fill, Reopen, Settle;
    if es != [] {
      var m := Apply(c, s, es[0]);
      StepStaysStopped(c, s, es[0]);
      if es[0].Top? && s.active != [] { PrepareGoesOn(c, s, es[0].d); }
      if !m.place.Exited? {
        var i :| 0 <= i < |es| && es[i].Back?;
        assert es[1..][i - 1] == es[i];
      }
      StopEnds(c, m, es[1..]);
    }
  }

  /** SignalStop between the append and the bump of an AddJob: the bump takes the stop signal
      back, and the counter is where the loop saw it last. The agent is told neither to stop nor
      that there is a job, and goes on waiting. */
  lemma StopIsLost()
    ensures
      var s := Start(PLAIN).(place := AtSelect, last := 0);
      var t := s.(newJobs := [ONE]);
      && Goes(PLAIN, Start(PLAIN), Top(DIAL), s)
      && Possible(PLAIN, s, [Check, Append(ONE), Stop, Bump]) && Run(PLAIN, s, [Check, Append(ONE), Stop, Bump]) == t
      && Possible(PLAIN, t, [Back(Exchange(0, [], {Switch}, false), {}), Top(DIAL)])
      && Run(PLAIN, t, [Back(Exchange(0, [], {Switch}, false), {}), Top(DIAL)]) == t
  {
    var s := Start(PLAIN).(place := AtSelect, last := 0);
    assert Goes(PLAIN, Start(PLAIN), Top(DIAL), s);
    Handover(s);
    Idle(s.(newJobs := [ONE]));
  }

  lemma Handover(s: State)
    requires s == Start(PLAIN).(place := AtSelect, last := 0)
    ensures Possible(PLAIN, s, [Check, Append(ONE), Stop, Bump])
    ensures Run(PLAIN, s, [Check, Append(ONE), Stop, Bump]) == s.(newJobs := [ONE])
  {
    var s1 := s.(admitted := 1);
    var s2 := s.(newJobs := [ONE], pending := 1);
    var s3 := s2.(hint := -1);
    var t := s.(newJobs := [ONE]);
    RunOne(PLAIN, s3, Bump, t, []);
    RunOne(PLAIN, s2, Stop, s3, [Bump]);
    RunOne(PLAIN, s1, Append(ONE), s2, [Stop, Bump]);
    RunOne(PLAIN, s, Check, s1, [Append(ONE), Stop, Bump]);
    assert [Check] + [Append(ONE), Stop, Bump] == [Check, Append(ONE), Stop, Bump];
    assert [Append(ONE)] + [Stop, Bump] == [Append(ONE), Stop, Bump] && [Stop] + [Bump] == [Stop, Bump] && [Bump] + [] == [Bump];
  }

  lemma RunOne(c: Config, s: State, e: Event, t: State, rest: seq<Event>)
    requires Goes(c, s, e, t) && Possible(c, t, rest)
    ensures Possible(c, s, [e] + rest) && Run(c, s, [e] + rest) == Run(c, t, rest)
  {
    hide Apply, Enabled;
    assert ([e] + rest)[1..] == rest;
  }

  lemma Idle(t: State)
    requires t.place.AtSelect? && t.next == [] && t.active == [] && t.con.None? && t.wire == [] && !t.stop && !t.expectClose
    requires t.hint == t.last == 0
    ensures
      var es := [Back(Exchange(0, [], {Switch}, false), {}), Top(DIAL)];
      Possible(PLAIN, t, es) && Run(PLAIN, t, es) == t
  {
    var es := [Back(Exchange(0, [], {Switch}, false), {}), Top(DIAL)];
    var u := t.(place := AtTop);
    assert t.gone + AllGone(t.active[..0], Finished) == t.gone;
    assert Apply(PLAIN, t, es[0]) == u;
    assert Apply(PLAIN, u, es[1]) == t;
    assert es[1..] == [Top(DIAL)] && [Top(DIAL)][1..] == [];
    var none: seq<Event> := [];
    assert Possible(PLAIN, t, none) && Run(PLAIN, t, none) == t;
    assert Possible(PLAIN, u, [Top(DIAL)]) && Run(PLAIN, u, [Top(DIAL)]) == t;
  }
}
