/** Where single-version delivery ends: the exact condition on one answer, and three concrete runs
    whose complete file is no version of the remote one. */
module StaleProbe {
  import opened Text
  import opened ItemStatus
  import opened FileItem
  import opened SingleVersion

  /** An answer breaks the invariant exactly if it is a probe answer for a download under way
      whose last byte is not the right one: the item is then declared complete. */
  lemma SpoilsExactly(w: World, s: Sys, id: nat, r: Response, v: Option<Date>)
    requires Inv(w, s) && Enabled(w, s, Answer(id, r, v))
    ensures Inv(w, Apply(s, Answer(id, r, v))) <==> !Spoils(w, s, id, r)
  {
    hide ReaderOk, FreshOk, Apply;
    if Spoils(w, s, id, r) {
      SpoiltItem(w, s, id, r, v);
    } else {
      AnswerStep(w, s, id, r, v);
    }
  }

  lemma SpoiltItem(w: World, s: Sys, id: nat, r: Response, v: Option<Date>)
    requires Inv(w, s) && Enabled(w, s, Answer(id, r, v)) && Spoils(w, s, id, r)
    ensures !ItemOk(w, Apply(s, Answer(id, r, v)))
  {
    hide ReaderOk, FreshOk;
    OneJob(w, s, id);
  }

  /** The invariant holds at the start and after every event of the run. */
  ghost predicate AlwaysInv(w: World, s: Sys, es: seq<Event>)
    requires Possible(s, es)
    decreases |es|
  {
    Inv(w, s) && (es != [] ==> AlwaysInv(w, Apply(s, es[0]), es[1..]))
  }

  /** With an honest server, it does exactly if no answer of the run spoils the item. */
  lemma {:induction false} AlwaysInvIff(w: World, s: Sys, es: seq<Event>)
    requires Inv(w, s) && Possible(s, es) && AllFaithful(w, s, es)
    ensures AlwaysInv(w, s, es) <==> NoSpoils(w, s, es)
    decreases |es|
  {
    hide Inv, Apply, Can, Faithful, Spoils;
    if es != [] {
      var e := es[0];
      if SpoiltBy(w, s, e) {
        SpoilsExactly(w, s, e.id, e.r, e.v);
        assert e == Answer(e.id, e.r, e.v);
      } else {
        Step(w, s, e);
        AlwaysInvIff(w, Apply(s, e), es[1..]);
      }
    }
  }

  /** An answer in the shape of a probe answer, while the file is being downloaded and not all of
      what was cached has been checked: this can be told without knowing the remote file. */
  predicate LateProbe(s: Sys, e: Event) {
    && e.Answer? && e.id in s.jobs && s.jobs[e.id].owner && e.r.code == 206 && IsProbeAnswer(s.fi, e.r)
    && 3 <= Order(s.fi.status) <= 4 && s.fi.sizeChecked < s.fi.sizeInitial
  }

  ghost predicate NoLateProbe(s: Sys, es: seq<Event>)
    requires Possible(s, es)
    decreases |es|
  {
    es == [] || (!LateProbe(s, es[0]) && NoLateProbe(Apply(s, es[0]), es[1..]))
  }

  /** Where there is none, nothing is spoilt. */
  lemma {:induction false} NoLateProbeNoSpoils(w: World, s: Sys, es: seq<Event>)
    requires Possible(s, es) && NoLateProbe(s, es)
    ensures NoSpoils(w, s, es)
    decreases |es|
  {
    hide Can, Apply;
    if es != [] { NoLateProbeNoSpoils(w, Apply(s, es[0]), es[1..]); }
  }

  // ---------------------------------------------------------------- concrete runs

  const SOUND := Disk(true, true, true, true, true, true)

  /** Two versions of the same length. */
  function TwoVersions(): World { d => if d == Some(1) then "ab" else "cd" }

  function OnDisk(content: string, len: int, date: Date): Fi {
    Fi(Fresh, -1, -1, -1, None, 0, false, false, Keep, 0, [content], Some(0), None, 0, Stored(len, Some(date)))
  }

  /** One event takes the one state to the other. */
  predicate Goes(w: World, s: Sys, e: Event, t: Sys) {
    Enabled(w, s, e) && Apply(s, e) == t
  }

  ghost predicate Leads(w: World, s: Sys, es: seq<Event>, t: Sys)
    decreases |es|
  {
    if es == [] then s == t else exists m :: Goes(w, s, es[0], m) && Leads(w, m, es[1..], t)
  }

  lemma Then(w: World, s: Sys, e: Event, m: Sys, es: seq<Event>, t: Sys)
    requires Goes(w, s, e, m) && Leads(w, m, es, t)
    ensures Leads(w, s, [e] + es, t)
  {
    assert ([e] + es)[1..] == es;
  }

  lemma Three(w: World, s: Sys, a: Event, s1: Sys, b: Event, s2: Sys, c: Event, t: Sys)
    requires Goes(w, s, a, s1) && Goes(w, s1, b, s2) && Goes(w, s2, c, t)
    ensures Leads(w, s, [a, b, c], t)
  {
    hide Goes;
    assert [c] + [] == [c] && [b] + [c] == [b, c] && [a] + [b, c] == [a, b, c];
    Then(w, s2, c, t, [], t);
    Then(w, s1, b, s2, [c], t);
    Then(w, s, a, s1, [b, c], t);
  }

  /** The item with one job. */
  function With(fi: Fi, j: Dl, good: bool): Sys { Sys(fi, map[0 := j], map[], good, true, false) }

  function Asking(q: Query): Dl { Dl(true, false, true, Some(q), None) }

  const PROBE := Response(206, 1, Bytes(1, 2), Some(2), false)
  const FULL := Response(200, 2, NoRange, Some(2), false)

  /** A complete file is revalidated; the remote one has changed. */
  const STORED := Fi(Inited, 2, -1, 2, Some(1), 200, false, true, Keep, 0, ["ab"], Some(0), None, 0, Stored(2, Some(1)))
  const CHANGED := Fi(DlGotHead, 2, 0, 2, Some(2), 200, false, true, Keep, 1, ["ab"], Some(0), None, 0, Stored(2, Some(1)))

  lemma Revalidate()
    ensures
      var s := Opened(OnDisk("ab", 2, 1), true);
      Leads(TwoVersions(), s, [AddJob(0), Request(0, true), Answer(0, FULL, Some(2))],
            With(CHANGED, Dl(true, true, true, None, Some(Stream(Some(2), 0))), true))
  {
    var w, s := TwoVersions(), Opened(OnDisk("ab", 2, 1), true);
    assert s.fi == STORED;
    var s1 := With(STORED.(refs := 1), Dl(true, false, true, None, None), false);
    assert Goes(w, s, AddJob(0), s1);
    var s2 := With(STORED.(refs := 1), Asking(Query(1, Some(1))), false);
    assert Goes(w, s1, Request(0, true), s2);
    var t := With(CHANGED, Dl(true, true, true, None, Some(Stream(Some(2), 0))), true);
    assert Goes(w, s2, Answer(0, FULL, Some(2)), t);
    Three(w, s, AddJob(0), s1, Request(0, true), s2, Answer(0, FULL, Some(2)), t);
  }

  /** The first byte of the new version is stored over that of the old one. */
  const MIXED := Fi(DlReceiving, 2, 1, 2, Some(2), 200, false, true, Keep, 1, ["cb"], Some(0), Some(0), 1, Stored(2, Some(2)))
  const REWRITING := With(MIXED, Dl(true, true, true, None, Some(Stream(Some(2), 1))), true)

  lemma Rewrite()
    ensures Goes(TwoVersions(), With(CHANGED, Dl(true, true, true, None, Some(Stream(Some(2), 0))), true), Body(0, "c", SOUND, 1), REWRITING)
  {
    assert TwoVersions()(Some(2))[0..1] == "c";
    assert Overwrite("ab", 0, "c") == "cb";
    var (f, ok) := SafeOpenOutFile(CHANGED, SOUND);
    assert ok && f == CHANGED.(status := DlReceiving, fd := Some(0), head := Stored(2, Some(2)));
    assert f.inodes[0 := "cb"] == ["cb"];
    assert DlAddData(CHANGED, "c", SOUND, 1) == (MIXED, true);
  }

  /** The connection is lost, and the request for the last byte looks like the probe of a
      complete file: complete, and neither of the two versions. */
  lemma StaleLastByte()
    ensures
      var done := MIXED.(status := Complete, sizeChecked := 2);
      && Leads(TwoVersions(), REWRITING, [Lost(0), Request(0, true), Answer(0, PROBE, Some(2))], With(done, Dl(true, true, false, None, None), true))
      && Content(done) == "cb"
  {
    var w := TwoVersions();
    var s1 := With(MIXED, Dl(true, true, true, None, None), true);
    assert Goes(w, REWRITING, Lost(0), s1);
    var s2 := With(MIXED, Dl(true, true, true, Some(Query(1, Some(2))), None), true);
    assert Goes(w, s1, Request(0, true), s2);
    var t := With(MIXED.(status := Complete, sizeChecked := 2), Dl(true, true, false, None, None), true);
    assert Goes(w, s2, Answer(0, PROBE, Some(2)), t);
    Three(w, REWRITING, Lost(0), s1, Request(0, true), s2, Answer(0, PROBE, Some(2)), t);
  }

  /** Or the rewrite is given up there. The next run of the server finds a file of the right
      length with a head of the new version, asks for its last byte, and accepts it. */
  lemma AbandonedRewrite()
    ensures
      var w := TwoVersions();
      var s := Opened(MIXED, true);
      var done := s.fi.(status := Complete, sizeChecked := 2, refs := 1);
      && Goes(w, REWRITING, DropJob(0), Sys(MIXED.(status := DlError, code := 503, refs := 0), map[], map[], true, true, false))
      && Leads(w, s, [AddJob(0), Request(0, true), Answer(0, PROBE, Some(2))], With(done, Dl(true, true, false, None, None), true))
      && Content(done) == "cb"
  {
    var w, s := TwoVersions(), Opened(MIXED, true);
    assert REWRITING.jobs - {0} == map[];
    var f := s.fi.(refs := 1);
    var s1 := With(f, Dl(true, false, true, None, None), false);
    assert Goes(w, s, AddJob(0), s1);
    var s2 := With(f, Asking(Query(1, Some(2))), false);
    assert Goes(w, s1, Request(0, true), s2);
    var t := With(f.(status := Complete, sizeChecked := 2), Dl(true, true, false, None, None), true);
    assert Goes(w, s2, Answer(0, PROBE, Some(2)), t);
    Three(w, s, AddJob(0), s1, Request(0, true), s2, Answer(0, PROBE, Some(2)), t);
  }

  /** A part of a file is there, and the request for the rest is answered 404: the length of the
      part is stored as that of the file, and the next run takes the part for all of it. */
  const PART := Fi(Inited, 1, -1, 2, Some(1), 200, false, true, Keep, 0, ["a"], Some(0), None, 0, Stored(2, Some(1)))
  const REFUSED := Fi(Complete, 1, 1, 1, None, 404, false, true, Keep, 1, ["a"], Some(0), None, 0, Stored(1, None))

  lemma PartTakenForAll()
    ensures
      && Opened(OnDisk("a", 2, 1), false).fi == PART
      && Leads(TwoVersions(), Opened(OnDisk("a", 2, 1), false),
               [AddJob(0), Request(0, true), Answer(0, Response(404, -1, NoRange, None, false), None)],
               With(REFUSED, Dl(true, true, false, None, None), false))
      && var u := Opened(REFUSED, false).fi; u.status.Complete? && u.code == 200 && u.sizeChecked == 1 && Content(u) == "a"
  {
    var s := Sys(PART, map[], map[], false, false, false);
    assert Opened(OnDisk("a", 2, 1), false) == s;
    Refuse(s);
  }

  lemma Refuse(s: Sys)
    requires s == Sys(PART, map[], map[], false, false, false)
    ensures Leads(TwoVersions(), s, [AddJob(0), Request(0, true), Answer(0, Response(404, -1, NoRange, None, false), None)],
                  With(REFUSED, Dl(true, true, false, None, None), false))
  {
    var w, r := TwoVersions(), Response(404, -1, NoRange, None, false);
    var f := PART.(refs := 1);
    var s1 := With(f, Dl(true, false, true, None, None), false);
    assert Goes(w, s, AddJob(0), s1);
    var s2 := With(f, Asking(Query(1, Some(1))), false);
    assert Goes(w, s1, Request(0, true), s2);
    var t := With(REFUSED, Dl(true, true, false, None, None), false);
    assert Goes(w, s2, Answer(0, r, None), t);
    Three(w, s, AddJob(0), s1, Request(0, true), s2, Answer(0, r, None), t);
  }
}
