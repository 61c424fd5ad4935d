/** Decoder and cache item together: whatever pieces an answer comes in, and whatever else happens to
    the item meanwhile, the calls of the decoder are the steps of an honest download. */
module WireToDisk {
  import opened Text
  import opened ItemStatus
  import opened FileItem
  import opened SingleVersion
  import H = HeaderParser
  import D = Decoder
  import W = Wire
  import L = Downloading

  /** How the item reads a head: its date, and the range it names. */
  datatype Reading = Reading(stamp: Option<string> -> Option<Date>, range: Option<string> -> RangeHeader)

  function ResponseOf(rd: Reading, h: H.HeadData): Response {
    var loc := D.FieldOf(h, H.Location);
    Response(h.code, D.Atoofft(D.FieldOf(h, H.ContentLength), -1), rd.range(D.FieldOf(h, H.ContentRange)),
             rd.stamp(D.FieldOf(h, H.LastModified)), loc.Some? && loc.value != "")
  }

  /** What the decoder is told about a head. */
  function VerdictOf(fi: Fi, j: Dl, r: Response): D.Verdict
    requires j.query.Some?
  {
    var (_, k, eval) := CheckAndSaveHeader(fi, j, r);
    match eval
    case EvalGood => D.Good(k.allow)
    case EvalRestart => D.RestartNeeded
    case EvalBusy => D.BusyOrError(k.allow)
  }

  /** An event that is a call of the decoder of this job. */
  predicate Mine(e: Event, id: nat) {
    (e.Answer? && e.id == id) || (e.Body? && e.id == id) || (e.Ended? && e.id == id)
  }

  predicate IsCall(e: Event, id: nat, rd: Reading, v: Option<Date>, op: L.Op) {
    match op
    case Ask(h) => e == Answer(id, ResponseOf(rd, h), v)
    case Data(chunk) => e.Body? && e.id == id && e.chunk == chunk
    case Finish => e == Ended(id)
  }

  /** The decoder's events of the run are these calls, in this order, or the first of them; any others
      may come in between. */
  ghost predicate Follows(es: seq<Event>, id: nat, rd: Reading, v: Option<Date>, ops: seq<L.Op>)
    decreases |es|
  {
    es == [] ||
    if Mine(es[0], id) then ops != [] && IsCall(es[0], id, rd, v, ops[0]) && Follows(es[1..], id, rd, v, ops[1..])
    else Follows(es[1..], id, rd, v, ops)
  }

  /** The server is honest about what others ask, and in the head of this answer; and the decoder is
      told what the item says about it. */
  ghost predicate Heard(w: World, s: Sys, es: seq<Event>, id: nat, rules: D.Rules, shown: H.HeadData)
    requires Possible(s, es)
    decreases |es|
  {
    es == [] ||
    (&& (!Mine(es[0], id) || es[0].Answer? ==> Faithful(w, s, es[0]))
     && (Mine(es[0], id) && es[0].Answer? ==> rules.judge(shown) == VerdictOf(s.fi, s.jobs[id], es[0].r))
     && Heard(w, Apply(s, es[0]), es[1..], id, rules, shown))
  }

  /** Where the download stands: before the head nothing comes in; behind it, the item is at the byte
      behind those that were handed over. */
  ghost predicate Linked(s: Sys, id: nat, v: Option<Date>, first: nat, allow: bool, asked: bool, handed: string) {
    id in s.jobs && s.jobs[id].stream.Some? ==>
      asked && allow && s.jobs[id].stream.value == Stream(v, first + |handed|)
  }

  lemma OthersKeep(s: Sys, e: Event, id: nat)
    requires Can(s, e) && !Mine(e, id)
    ensures var t := Apply(s, e); id in t.jobs && t.jobs[id].stream.Some? ==> id in s.jobs && s.jobs[id].stream == t.jobs[id].stream
  {
    hide CheckAndSaveHeader, DlAddData, DlFinish, RefDec;
  }

  /** The calls that are still to come, with those that were made. */
  ghost predicate ToCome(a: W.Reply, allow: bool, asked: bool, handed: string, ops: seq<L.Op>, whole: bool) {
    if !asked then handed == "" && L.Answered(a, allow, ops, whole)
    else
      var kept := if allow then W.BodyText(a.body) else "";
      L.Middle(ops, whole) && handed + L.Handed(ops) <= kept && (whole ==> handed + L.Handed(ops) == kept)
  }

  lemma NextCall(a: W.Reply, allow: bool, asked: bool, handed: string, ops: seq<L.Op>, whole: bool)
    requires ops != [] && ToCome(a, allow, asked, handed, ops, whole)
    ensures
      match ops[0]
      case Ask(h) => !asked && handed == "" && h == W.Shown(a) && ToCome(a, allow, true, handed, ops[1..], whole)
      case Data(chunk) =>
        asked && ToCome(a, allow, true, handed + chunk, ops[1..], whole)
        && handed + chunk <= if allow then W.BodyText(a.body) else ""
      case Finish => asked && ops == [L.Finish] && handed == if allow then W.BodyText(a.body) else ""
  {
    hide W.Shown, W.BodyText;
    var kept := if allow then W.BodyText(a.body) else "";
    if asked {
      if ops[0].Data? { NextData(kept, handed, ops, whole); } else { NextEnd(kept, handed, ops, whole); }
    } else {
      assert handed + L.Handed(ops[1..]) == L.Handed(ops[1..]);
    }
  }

  lemma NextData(kept: string, handed: string, ops: seq<L.Op>, whole: bool)
    requires ops != [] && ops[0].Data? && L.Middle(ops, whole)
    requires handed + L.Handed(ops) <= kept && (whole ==> handed + L.Handed(ops) == kept)
    ensures var more := handed + ops[0].chunk;
      && L.Middle(ops[1..], whole) && more <= kept
      && more + L.Handed(ops[1..]) <= kept && (whole ==> more + L.Handed(ops[1..]) == kept)
  {
    assert handed + (ops[0].chunk + L.Handed(ops[1..])) == handed + ops[0].chunk + L.Handed(ops[1..]);
  }

  lemma NextEnd(kept: string, handed: string, ops: seq<L.Op>, whole: bool)
    requires ops != [] && !ops[0].Data? && L.Middle(ops, whole)
    requires whole ==> handed + L.Handed(ops) == kept
    ensures ops == [L.Finish] && handed == kept
  {
    assert ops[1..] == [] && L.Handed(ops) == "" + "" && handed + "" == handed;
  }

  /** One call: the head starts the stream, data moves it on, and is what the version has there. */
  lemma CallStep(w: World, s: Sys, e: Event, id: nat, rd: Reading, v: Option<Date>, a: W.Reply, rules: D.Rules, asked: bool, handed: string,
                 ops: seq<L.Op>, whole: bool)
    requires Can(s, e) && Mine(e, id) && ops != [] && IsCall(e, id, rd, v, ops[0])
    requires rules.judge(W.Shown(a)).Good? && ToCome(a, rules.judge(W.Shown(a)).allow, asked, handed, ops, whole)
    requires Linked(s, id, v, FirstByte(ResponseOf(rd, W.Shown(a))), rules.judge(W.Shown(a)).allow, asked, handed)
    requires FirstByte(ResponseOf(rd, W.Shown(a))) <= |w(v)| && W.BodyText(a.body) == w(v)[FirstByte(ResponseOf(rd, W.Shown(a)))..]
    requires e.Answer? ==> Faithful(w, s, e) && rules.judge(W.Shown(a)) == VerdictOf(s.fi, s.jobs[id], e.r)
    ensures Faithful(w, s, e)
    ensures var more := if e.Body? then handed + e.chunk else handed;
      var first, allow := FirstByte(ResponseOf(rd, W.Shown(a))), rules.judge(W.Shown(a)).allow;
      Linked(Apply(s, e), id, v, first, allow, true, more) && (!e.Ended? ==> ToCome(a, allow, true, more, ops[1..], whole))
  {
    hide CheckAndSaveHeader, DlAddData, DlFinish, RefDec, ToCome, ResponseOf, W.Shown, W.BodyText, FirstByte;
    var allow := rules.judge(W.Shown(a)).allow;
    NextCall(a, allow, asked, handed, ops, whole);
    if e.Body? {
      var text := w(v)[FirstByte(ResponseOf(rd, W.Shown(a)))..];
      assert allow && handed + e.chunk <= text;
      Next(w(v), FirstByte(ResponseOf(rd, W.Shown(a))), handed, e.chunk);
    }
  }

  lemma Next(text: string, first: nat, handed: string, chunk: string)
    requires first <= |text| && handed + chunk <= text[first..]
    ensures var at := first + |handed|; at + |chunk| <= |text| && chunk == text[at..at + |chunk|]
  {
    assert chunk == text[first..][..|handed + chunk|][|handed|..];
  }

  lemma {:induction false} CallsAreFaithful(w: World, s: Sys, es: seq<Event>, id: nat, rd: Reading, v: Option<Date>, a: W.Reply, rules: D.Rules,
                                            asked: bool, handed: string, ops: seq<L.Op>, whole: bool)
    requires Possible(s, es) && Follows(es, id, rd, v, ops) && Heard(w, s, es, id, rules, W.Shown(a))
    requires rules.judge(W.Shown(a)).Good? && ToCome(a, rules.judge(W.Shown(a)).allow, asked, handed, ops, whole)
    requires Linked(s, id, v, FirstByte(ResponseOf(rd, W.Shown(a))), rules.judge(W.Shown(a)).allow, asked, handed)
    requires FirstByte(ResponseOf(rd, W.Shown(a))) <= |w(v)| && W.BodyText(a.body) == w(v)[FirstByte(ResponseOf(rd, W.Shown(a)))..]
    ensures AllFaithful(w, s, es)
    decreases |es|
  {
    hide Can, Apply, Faithful, Linked, ToCome, ResponseOf, W.Shown, W.BodyText, FirstByte, IsCall, Mine, VerdictOf;
    if es != [] {
      var e, first, allow := es[0], FirstByte(ResponseOf(rd, W.Shown(a))), rules.judge(W.Shown(a)).allow;
      var t := Apply(s, e);
      if Mine(e, id) {
        CallStep(w, s, e, id, rd, v, a, rules, asked, handed, ops, whole);
        var more := if e.Body? then handed + e.chunk else handed;
        if e.Ended? {
          LastCall(a, allow, asked, handed, e, id, rd, v, ops, whole);
          NothingLeft(w, t, es[1..], id, rd, v, rules, W.Shown(a));
        } else {
          CallsAreFaithful(w, t, es[1..], id, rd, v, a, rules, true, more, ops[1..], whole);
        }
      } else {
        StillLinked(s, e, id, v, first, allow, asked, handed);
        CallsAreFaithful(w, t, es[1..], id, rd, v, a, rules, asked, handed, ops, whole);
      }
    }
  }

  lemma LastCall(a: W.Reply, allow: bool, asked: bool, handed: string, e: Event, id: nat, rd: Reading, v: Option<Date>, ops: seq<L.Op>, whole: bool)
    requires ops != [] && IsCall(e, id, rd, v, ops[0]) && e.Ended? && ToCome(a, allow, asked, handed, ops, whole)
    ensures ops[1..] == []
  {
    NextCall(a, allow, asked, handed, ops, whole);
  }

  lemma StillLinked(s: Sys, e: Event, id: nat, v: Option<Date>, first: nat, allow: bool, asked: bool, handed: string)
    requires Can(s, e) && !Mine(e, id) && Linked(s, id, v, first, allow, asked, handed)
    ensures Linked(Apply(s, e), id, v, first, allow, asked, handed)
  {
    OthersKeep(s, e, id);
    hide Can, Apply, Mine;
  }

  /** After the last call, all events are others'. */
  lemma {:induction false} NothingLeft(w: World, s: Sys, es: seq<Event>, id: nat, rd: Reading, v: Option<Date>, rules: D.Rules, shown: H.HeadData)
    requires Possible(s, es) && Follows(es, id, rd, v, []) && Heard(w, s, es, id, rules, shown)
    ensures AllFaithful(w, s, es)
    decreases |es|
  {
    hide Can, Apply, Faithful, Mine, VerdictOf;
    if es != [] { NothingLeft(w, Apply(s, es[0]), es[1..], id, rd, v, rules, shown); }
  }

  /** From the wire to the disk and to the readers. A well-formed answer comes in, in any pieces and up to
      any point; its head is honest, and its body is the version it names, from the first byte it
      announces. The decoder calls the item, and in between anything may happen to that. If no probe
      answer spoils it, the item holds and serves one version. */
  lemma WireToReaders(w: World, s: Sys, es: seq<Event>, id: nat, rd: Reading, v: Option<Date>, a: W.Reply, dj: D.Job, pieces: seq<string>)
    requires Inv(w, s) && (id in s.jobs ==> s.jobs[id].stream.None?)
    requires W.Complete(a) && W.Takes(dj, a) && Concat(pieces) <= W.Bytes(a)
    requires var first := FirstByte(ResponseOf(rd, W.Shown(a))); first <= |w(v)| && W.BodyText(a.body) == w(v)[first..]
    requires Possible(s, es) && Follows(es, id, rd, v, L.AllOps(dj, "", pieces)) && Heard(w, s, es, id, dj.rules, W.Shown(a))
    requires NoSpoils(w, s, es)
    ensures AllFaithful(w, s, es) && OneVersion(w, s, Run(s, es))
  {
    hide W.Complete, W.Takes, W.Bytes, L.AllOps, L.Answered, ResponseOf, FirstByte, W.Shown, W.BodyText, Inv, OneVersion, Heard, Possible, NoSpoils,
      AllFaithful, Run, Follows;
    W.NotEmpty(a);
    assert "" + Concat(pieces) == Concat(pieces);
    L.AnswerOps(dj, a, "", pieces);
    assert W.Served(dj, a).allow == dj.rules.judge(W.Shown(a)).allow && dj.rules.judge(W.Shown(a)).Good? by { JudgedGood(dj, a); }
    CallsAreFaithful(w, s, es, id, rd, v, a, dj.rules, false, "", L.AllOps(dj, "", pieces), Concat(pieces) == W.Bytes(a));
    SingleVersionDelivery(w, s, es);
  }

  lemma JudgedGood(dj: D.Job, a: W.Reply)
    requires W.Takes(dj, a)
    ensures W.Served(dj, a).allow == dj.rules.judge(W.Shown(a)).allow && dj.rules.judge(W.Shown(a)).Good?
  {
    hide W.Shown;
  }

  /** And the call at the end leaves the whole version on disk. */
  lemma EndIsWhole(w: World, s: Sys, id: nat)
    requires Inv(w, s) && Enabled(w, s, Ended(id)) && s.jobs[id].stream.Some?
    ensures var t := Apply(s, Ended(id)).fi;
      t.status.Complete? && t.code == 200 && t.sizeChecked == |w(s.jobs[id].stream.value.version)| && w(s.jobs[id].stream.value.version) <= Content(t)
  {
    OneJob(w, s, id);
    EndedStep(w, s, id);
    Streaming(w, s.fi, s.jobs[id]);
    WasGood(w, s);
    Finished(s.fi);
    hide Inv, JobOk, DlFinish, RefDec, GoodOk;
    var t := Apply(s, Ended(id));
    assert t.good && t.fi == RefDec(DlFinish(s.fi, false), 503);
    StillGood(w, t);
    Whole(w, t.fi);
  }

  lemma WasGood(w: World, s: Sys)
    requires Inv(w, s) && 3 <= Order(s.fi.status) <= 4
    ensures s.good && s.fi.code == 200 && (s.jobs != map[] ==> s.fi.refs > 0)
  {
    if id :| id in s.jobs { JobCounts(s.jobs, id, s.jobs[id]); }
  }

  lemma StillGood(w: World, s: Sys)
    requires Inv(w, s) && s.good
    ensures GoodOk(w, s.fi)
  {
  }

  lemma Finished(fi: Fi)
    requires 3 <= Order(fi.status) <= 4 && fi.refs > 0
    ensures var t := RefDec(DlFinish(fi, false), 503); t.status.Complete? && t.code == fi.code && t.date == fi.date
  {
  }

  lemma Whole(w: World, fi: Fi)
    requires GoodOk(w, fi) && fi.status.Complete?
    ensures fi.sizeChecked == |w(fi.date)| && w(fi.date) <= Content(fi)
  {
  }

  lemma Streaming(w: World, fi: Fi, j: Dl)
    requires JobOk(w, fi, j) && j.stream.Some?
    ensures fi.date == j.stream.value.version && 3 <= Order(fi.status) <= 4
  {
  }
}
