/** Expiration (src/expiration.cc): files that no index mentions are noted with the time this was
    seen first, in a text file that lasts from run to run, and removed when that is long ago. */
module Expiration {
  import opened Text

  /** A file, split as the table of candidates is. */
  datatype Key = Key(dir: string, file: string)

  // ---------------------------------------------------------------- the pending list as text

  const TAB: string := "\t"

  function PrintEntry(k: Key, t: nat): string { Dec(t) + TAB + k.dir + TAB + k.file }

  function LineEnd(s: string): (n: nat)
    ensures n <= |s| && (forall i :: 0 <= i < n ==> s[i] != '\r' && s[i] != '\n')
    ensures n < |s| ==> s[n] == '\r' || s[n] == '\n'
  {
    if s == "" || s[0] == '\r' || s[0] == '\n' then 0 else 1 + LineEnd(s[1..])
  }

  /** GetOneLine, up to the end of the file: a pair of unlike line ends counts once. */
  function LinesOf(s: string): seq<string>
    decreases |s|
  {
    if s == "" then []
    else
      var n := LineEnd(s);
      if n == |s| then [s]
      else
        var pair := n + 1 < |s| && (s[n + 1] == '\r' || s[n + 1] == '\n') && s[n] != s[n + 1];
        [s[..n]] + LinesOf(s[if pair then n + 2 else n + 1..])
  }

  /** time_t from unsigned: the upper half is negative. */
  function ToTime(v: nat): int { if v >= WORD / 2 then v - WORD else v }

  function ParseFields(r: string): Option<Key> {
    var sep := FindChar(r, '\t');
    if sep.None? then None
    else
      var dir, file := r[..sep.value], r[sep.value + 1..];
      if '\t' in file then None
      else Some(Key(if dir != "" && dir[|dir| - 1] != '/' then dir + "/" else dir, file))
  }

  /** One line of the list; entries from the future and malformed ones are passed over. */
  function ParseEntry(line: string, now: int): Option<(Key, int)> {
    var n := StrToUl(CStr(line));
    if n.None? then None
    else
      var (v, rest) := n.value;
      if rest == "" || rest[0] != '\t' || v == 0 || ToTime(v) > now then None
      else
        var k := ParseFields(rest[1..]);
        if k.None? then None else Some((k.value, ToTime(v)))
  }

  // ---------------------------------------------------------------- one run

  /** A run is stopped before it reviews its candidates, or cannot open the list in the end: then
      it has tried to unlink it and to create it anew. */
  datatype End = Completed | Stopped | Unwritable(unlinked: bool)

  /** What a run finds: the time, the files on disk, those some index covers, those that are not to
      be removed in any case, those whose time is reset because of their version, and the order in
      which the table is walked; and how it ends. */
  datatype Run = Run(now: int, present: set<Key>, referenced: set<Key>, protected: set<Key>, refreshed: set<Key>,
                     order: seq<Key>, end: End)

  /** Candidates with the time they were lost; 0 for entries made by looking them up. */
  type Table = map<Key, int>

  function Scanned(r: Run): Table { map k | k in r.present - r.referenced :: r.now }

  /** LoadPreviousData: an entry that is still a candidate gets its old time back. */
  function LoadOne(m: Table, line: string, now: int): Table {
    var e := ParseEntry(line, now);
    if e.None? then m
    else
      var (k, t) := e.value;
      var cur := if k in m then m[k] else 0;
      m[k := if cur > 0 then t else cur]
  }

  function Load(m: Table, lines: seq<string>, now: int): Table
    decreases |lines|
  {
    if lines == [] then m else Load(LoadOne(m, lines[0], now), lines[1..], now)
  }

  function Refresh(m: Table, r: Run): Table { map k | k in m :: if k in r.refreshed then r.now else m[k] }

  /** The table as it is reviewed. */
  function Reviewed(pending: string, r: Run): Table { Refresh(Load(Scanned(r), LinesOf(pending), r.now), r) }

  predicate Expired(t: int, now: int, days: int) { t < now - days * 86400 }

  predicate Removes(m: Table, r: Run, days: int, k: Key) {
    k in m && k !in r.protected && m[k] > 0 && Expired(m[k], r.now, days)
  }

  predicate Keeps(m: Table, r: Run, days: int, k: Key) {
    k in m && k !in r.protected && m[k] > 0 && !Expired(m[k], r.now, days)
  }

  datatype Entry = Entry(key: Key, lost: nat)

  function Tagged(m: Table, r: Run, days: int, order: seq<Key>): seq<Entry> {
    if order == [] then []
    else if Keeps(m, r, days, order[0]) then [Entry(order[0], m[order[0]])] + Tagged(m, r, days, order[1..])
    else Tagged(m, r, days, order[1..])
  }

  function PrintAll(es: seq<Entry>): string {
    if es == [] then "" else PrintEntry(es[0].key, es[0].lost) + "\n" + PrintAll(es[1..])
  }

  /** The pending list after the run, and what the run removes. */
  function PendingAfter(pending: string, r: Run, days: int): string {
    match r.end
    case Completed => PrintAll(Tagged(Reviewed(pending, r), r, days, r.order))
    case Stopped => pending
    case Unwritable(unlinked) => if unlinked then "" else pending
  }

  predicate RemovedBy(pending: string, r: Run, days: int, k: Key) {
    r.end.Completed? && k in r.order && Removes(Reviewed(pending, r), r, days, k)
  }

  // ---------------------------------------------------------------- reading back what was printed

  /** Names as the scan admits them: directories end in a slash, and no line ends; NUL cannot be. */
  predicate Clean(k: Key) {
    && (k.dir == "" || k.dir[|k.dir| - 1] == '/')
    && forall c :: c in k.dir || c in k.file ==> c != '\r' && c != '\n' && c != '\0'
  }

  predicate Tabless(k: Key) { '\t' !in k.dir && '\t' !in k.file }

  lemma {:induction false} LineEndAt(a: string, rest: string)
    requires forall c :: c in a ==> c != '\r' && c != '\n'
    requires rest != "" && (rest[0] == '\r' || rest[0] == '\n')
    ensures LineEnd(a + rest) == |a|
  {
    var s := a + rest;
    assert forall i :: 0 <= i < |a| ==> s[i] == a[i] && s[i] in a;
    assert s[|a|] == rest[0];
  }

  lemma FirstLine(a: string, rest: string)
    requires forall c :: c in a ==> c != '\r' && c != '\n'
    requires rest == "" || (rest[0] != '\r' && rest[0] != '\n')
    ensures LinesOf(a + "\n" + rest) == [a] + LinesOf(rest)
  {
    hide LineEnd;
    var s := a + "\n" + rest;
    assert s == a + ("\n" + rest);
    LineEndAt(a, "\n" + rest);
    assert s[..|a|] == a && s[|a| + 1..] == rest;
    assert rest != "" ==> s[|a| + 1] == rest[0];
  }

  lemma FieldsOfPrinted(k: Key)
    requires Clean(k)
    ensures ParseFields(k.dir + TAB + k.file) == if Tabless(k) then Some(k) else None
  {
    var r := k.dir + TAB + k.file;
    var sep := FindChar(r, '\t');
    assert r[|k.dir|] == '\t';
    if '\t' !in k.dir {
      assert forall i :: 0 <= i < |k.dir| ==> r[i] == k.dir[i];
      assert sep == Some(|k.dir|);
      assert r[..|k.dir|] == k.dir && r[|k.dir| + 1..] == k.file;
    } else {
      assert sep.value < |k.dir| by {
        var i :| 0 <= i < |k.dir| && k.dir[i] == '\t';
        assert r[i] == '\t';
      }
      var file := r[sep.value + 1..];
      assert file[|k.dir| - sep.value - 1] == '\t';
    }
  }

  /** A printed entry reads back as it was, if its name has no tab in it; else not at all. */
  lemma EntryReadsBack(k: Key, t: nat, now: int)
    requires Clean(k) && 0 < t < WORD / 2
    ensures ParseEntry(PrintEntry(k, t), now) == if Tabless(k) && t <= now then Some((k, t)) else None
  {
    hide Dec, StrToUl, ParseFields, CStr;
    var line := PrintEntry(k, t);
    var rest := TAB + k.dir + TAB + k.file;
    assert line == Dec(t) + rest;
    assert '\0' !in line;
    CStrNone(line);
    NumberOf(t, rest);
    assert rest[1..] == k.dir + TAB + k.file;
    FieldsOfPrinted(k);
  }

  predicate CleanEntries(es: seq<Entry>) {
    forall i :: 0 <= i < |es| ==> Clean(es[i].key) && 0 < es[i].lost < WORD / 2
  }

  function LinesFor(es: seq<Entry>): seq<string> {
    if es == [] then [] else [PrintEntry(es[0].key, es[0].lost)] + LinesFor(es[1..])
  }

  /** The list falls into the lines it was printed from. */
  lemma {:induction false} ListReadsBack(es: seq<Entry>)
    requires CleanEntries(es)
    ensures LinesOf(PrintAll(es)) == LinesFor(es)
    ensures PrintAll(es) != "" ==> IsDigit(PrintAll(es)[0])
    decreases |es|
  {
    hide LinesOf, Dec;
    if es == [] {
      NoLines();
    } else {
      ListReadsBack(es[1..]);
      var line := PrintEntry(es[0].key, es[0].lost);
      assert forall c :: c in line ==> c != '\r' && c != '\n' by { CleanLine(es[0].key, es[0].lost); }
      FirstLine(line, PrintAll(es[1..]));
      assert PrintAll(es)[0] == Dec(es[0].lost)[0];
    }
  }

  lemma NoLines()
    ensures LinesOf("") == []
  {
  }

  lemma CleanLine(k: Key, t: nat)
    requires Clean(k)
    ensures forall c :: c in PrintEntry(k, t) ==> c != '\r' && c != '\n'
  {
    hide Dec;
    assert forall c :: c in Dec(t) ==> IsDigit(c);
  }

  // ---------------------------------------------------------------- what the table holds then

  function Lookup(es: seq<Entry>, k: Key): nat {
    if es == [] then 0 else if es[0].key == k then es[0].lost else Lookup(es[1..], k)
  }

  predicate Distinct(es: seq<Entry>) { forall i, j :: 0 <= i < j < |es| ==> es[i].key != es[j].key }

  function Understood(t: nat, now: int, k: Key): nat { if Tabless(k) && t <= now then t else 0 }

  /** The time noted for a file, as far as a later run understands it. */
  function Noted(es: seq<Entry>, k: Key, now: int): nat { Understood(Lookup(es, k), now, k) }

  lemma {:induction false} NotLookedUp(es: seq<Entry>, k: Key)
    requires forall i :: 0 <= i < |es| ==> es[i].key != k
    ensures Lookup(es, k) == 0
    decreases |es|
  {
    if es != [] { NotLookedUp(es[1..], k); }
  }

  lemma {:induction false} LookedUp(es: seq<Entry>, k: Key)
    requires Lookup(es, k) > 0
    ensures exists i :: 0 <= i < |es| && es[i].key == k && es[i].lost == Lookup(es, k)
    decreases |es|
  {
    if es[0].key != k {
      LookedUp(es[1..], k);
      var i :| 0 <= i < |es[1..]| && es[1..][i].key == k && es[1..][i].lost == Lookup(es, k);
      assert es[i + 1].key == k && es[i + 1].lost == Lookup(es, k);
    }
  }

  /** Loading the list gives candidates their noted time back, and nothing else. */
  lemma {:induction false} Loaded(m: Table, es: seq<Entry>, now: int, k: Key)
    requires CleanEntries(es) && Distinct(es)
    ensures var r, p := Load(m, LinesFor(es), now), Noted(es, k, now);
      && (k in r <==> k in m || p > 0)
      && (k in r ==> r[k] == if k in m && m[k] > 0 && p > 0 then p else if k in m then m[k] else 0)
    decreases |es|
  {
    hide ParseEntry, PrintEntry;
    if es != [] {
      var e := es[0];
      EntryReadsBack(e.key, e.lost, now);
      var m1 := LoadOne(m, PrintEntry(e.key, e.lost), now);
      assert LinesFor(es)[0] == PrintEntry(e.key, e.lost) && LinesFor(es)[1..] == LinesFor(es[1..]);
      Loaded(m1, es[1..], now, k);
      if e.key == k { NotLookedUp(es[1..], k); }
    }
  }

  /** What remains of a file after one completed run, from the time noted before: the time it is
      reviewed with (0 if it is no candidate), and the time noted then. */
  predicate Uncovered(r: Run, k: Key) { k in r.present && k !in r.referenced }

  function ReviewTime(p: nat, r: Run, k: Key): int {
    if k in r.refreshed && (Uncovered(r, k) || p > 0) then r.now
    else if !Uncovered(r, k) then 0
    else if p > 0 then p else r.now
  }

  function NextLost(p: nat, r: Run, days: int, k: Key): nat {
    var t := ReviewTime(p, r, k);
    if k in r.protected || t <= 0 || Expired(t, r.now, days) then 0 else t
  }

  /** The time noted after a run, from the one noted before. */
  function LostAfter(t: nat, r: Run, days: int, k: Key): nat {
    match r.end
    case Completed => NextLost(Understood(t, r.now, k), r, days, k)
    case Stopped => t
    case Unwritable(unlinked) => if unlinked then 0 else t
  }

  lemma ReviewedAt(es: seq<Entry>, r: Run, k: Key)
    requires CleanEntries(es) && Distinct(es) && r.now > 0
    ensures var m, p := Reviewed(PrintAll(es), r), Noted(es, k, r.now);
      (if k in m then m[k] else 0) == ReviewTime(p, r, k) && (k in m <==> Uncovered(r, k) || p > 0)
  {
    hide LinesOf, Load, PrintAll;
    ListReadsBack(es);
    Loaded(Scanned(r), es, r.now, k);
  }

  // ---------------------------------------------------------------- the list after a run

  predicate NoRepeats(order: seq<Key>) { forall i, j :: 0 <= i < j < |order| ==> order[i] != order[j] }

  lemma {:induction false} TaggedAt(m: Table, r: Run, days: int, order: seq<Key>, k: Key)
    requires NoRepeats(order)
    ensures Lookup(Tagged(m, r, days, order), k) == if k in order && Keeps(m, r, days, k) then m[k] else 0
    decreases |order|
  {
    if order != [] { TaggedAt(m, r, days, order[1..], k); }
  }

  lemma {:induction false} TaggedFrom(m: Table, r: Run, days: int, order: seq<Key>)
    requires NoRepeats(order)
    ensures var es := Tagged(m, r, days, order);
      && Distinct(es)
      && forall i :: 0 <= i < |es| ==> es[i].key in order && Keeps(m, r, days, es[i].key) && es[i].lost == m[es[i].key]
    decreases |order|
  {
    hide Keeps;
    if order != [] {
      TaggedFrom(m, r, days, order[1..]);
      assert order[0] !in order[1..];
    }
  }

  /** A run as it can be: names as the scan admits them, a table walked once and completely. */
  predicate Proper(pending: string, r: Run) {
    && 0 < r.now < WORD / 2 && (forall k :: k in r.present ==> Clean(k))
    && NoRepeats(r.order) && (forall k :: k in Reviewed(pending, r) ==> k in r.order)
  }

  function After(es: seq<Entry>, r: Run, days: int): seq<Entry> {
    match r.end
    case Completed => Tagged(Reviewed(PrintAll(es), r), r, days, r.order)
    case Stopped => es
    case Unwritable(unlinked) => if unlinked then [] else es
  }

  lemma AfterIs(es: seq<Entry>, r: Run, days: int, k: Key)
    requires CleanEntries(es) && Distinct(es) && Proper(PrintAll(es), r)
    ensures PrintAll(After(es, r, days)) == PendingAfter(PrintAll(es), r, days)
    ensures Lookup(After(es, r, days), k) == LostAfter(Lookup(es, k), r, days, k)
    ensures RemovedBy(PrintAll(es), r, days, k) <==>
      var t := ReviewTime(Noted(es, k, r.now), r, k); r.end.Completed? && k !in r.protected && t > 0 && Expired(t, r.now, days)
  {
    assert PrintAll([]) == "" && Lookup([], k) == 0;
    hide Reviewed, PrintAll;
    ReviewedAt(es, r, k);
    TaggedAt(Reviewed(PrintAll(es), r), r, days, r.order, k);
  }

  lemma AfterOk(es: seq<Entry>, r: Run, days: int)
    requires CleanEntries(es) && Distinct(es) && Proper(PrintAll(es), r)
    ensures CleanEntries(After(es, r, days)) && Distinct(After(es, r, days))
  {
    hide Reviewed, PrintAll, ReviewTime, Noted, Clean;
    if r.end.Completed? {
      var m := Reviewed(PrintAll(es), r);
      TaggedFrom(m, r, days, r.order);
      var out := Tagged(m, r, days, r.order);
      forall i | 0 <= i < |out| ensures Clean(out[i].key) && 0 < out[i].lost < WORD / 2 {
        var k := out[i].key;
        ReviewedAt(es, r, k);
        KnownName(es, r, k);
      }
    }
  }

  lemma KnownName(es: seq<Entry>, r: Run, k: Key)
    requires CleanEntries(es) && (Uncovered(r, k) || Noted(es, k, r.now) > 0)
    requires 0 < r.now < WORD / 2 && forall k :: k in r.present ==> Clean(k)
    ensures Clean(k) && ReviewTime(Noted(es, k, r.now), r, k) < WORD / 2
  {
    hide Clean;
    if Noted(es, k, r.now) > 0 { LookedUp(es, k); }
  }

  // ---------------------------------------------------------------- sequences of runs

  function Entries(runs: seq<Run>, days: int): seq<Entry> {
    if runs == [] then [] else After(Entries(runs[..|runs| - 1], days), runs[|runs| - 1], days)
  }

  /** The contents of the list, from none at all. */
  function Pending(runs: seq<Run>, days: int): string {
    if runs == [] then "" else PendingAfter(Pending(runs[..|runs| - 1], days), runs[|runs| - 1], days)
  }

  predicate AllProper(runs: seq<Run>, days: int) {
    runs == [] || (AllProper(runs[..|runs| - 1], days) && Proper(Pending(runs[..|runs| - 1], days), runs[|runs| - 1]))
  }

  /** What the list is for: the time since when a file has been seen uncovered. */
  function LostAt(runs: seq<Run>, days: int, k: Key): nat {
    if runs == [] then 0 else LostAfter(LostAt(runs[..|runs| - 1], days, k), runs[|runs| - 1], days, k)
  }

  /** The text file is a faithful record of that. */
  lemma {:induction false} ListRecords(runs: seq<Run>, days: int)
    requires AllProper(runs, days)
    ensures var es := Entries(runs, days);
      && Pending(runs, days) == PrintAll(es) && CleanEntries(es) && Distinct(es)
      && forall k :: Lookup(es, k) == LostAt(runs, days, k)
    decreases |runs|
  {
    hide After, PendingAfter, Proper, CleanEntries, Distinct, LostAfter;
    if runs == [] {
      Nothing();
    } else {
      var init, r := runs[..|runs| - 1], runs[|runs| - 1];
      ListRecords(init, days);
      var es := Entries(init, days);
      AfterOk(es, r, days);
      forall k ensures Lookup(After(es, r, days), k) == LostAt(runs, days, k) { AfterIs(es, r, days, k); }
      AfterIs(es, r, days, Key("", ""));
    }
  }

  lemma Nothing()
    ensures CleanEntries([]) && Distinct([])
  {
  }

  /** Exactly which files a run removes. */
  lemma RemovedIff(runs: seq<Run>, days: int, r: Run, k: Key)
    requires AllProper(runs, days) && Proper(Pending(runs, days), r)
    ensures RemovedBy(Pending(runs, days), r, days, k) <==>
      var t := ReviewTime(Understood(LostAt(runs, days, k), r.now, k), r, k);
      r.end.Completed? && k !in r.protected && t > 0 && Expired(t, r.now, days)
  {
    hide Proper, RemovedBy, ReviewTime;
    ListRecords(runs, days);
    AfterIs(Entries(runs, days), r, days, k);
  }

  /** Since run `m`, whose time is noted, every completed run has seen the file uncovered and free
      to be removed. (In run `m` itself, it may be its version that put it on the list.) */
  predicate Streak(runs: seq<Run>, k: Key, m: nat) {
    && m < |runs| && runs[m].end.Completed? && (Uncovered(runs[m], k) || k in runs[m].refreshed)
    && forall j :: m < j < |runs| && runs[j].end.Completed? ==> Uncovered(runs[j], k) && k !in runs[j].protected
  }

  lemma {:induction false} NotedStreak(runs: seq<Run>, days: int, k: Key)
    requires LostAt(runs, days, k) > 0
    ensures exists m: nat :: Streak(runs, k, m) && runs[m].now == LostAt(runs, days, k)
    decreases |runs|
  {
    var init, r := runs[..|runs| - 1], runs[|runs| - 1];
    var t := LostAt(runs, days, k);
    if r.end.Completed? && t == r.now {
      assert Streak(runs, k, |runs| - 1);
    } else {
      assert LostAt(init, days, k) == t;
      NotedStreak(init, days, k);
      var m: nat :| Streak(init, k, m) && init[m].now == t;
      LongerStreak(runs, k, m);
    }
  }

  lemma LongerStreak(runs: seq<Run>, k: Key, m: nat)
    requires runs != [] && Streak(runs[..|runs| - 1], k, m)
    requires var r := runs[|runs| - 1]; r.end.Completed? ==> Uncovered(r, k) && k !in r.protected
    ensures Streak(runs, k, m)
  {
    hide Uncovered;
    var init := runs[..|runs| - 1];
    assert forall j :: 0 <= j < |init| ==> init[j] == runs[j];
  }

  /** Expiration is safe, over all sequences of runs: a file is removed only if the time noted for
      it is out of date, and since then every completed run, this one included, has seen it
      uncovered and free to be removed. */
  lemma RemovalIsSafe(runs: seq<Run>, days: nat, r: Run, k: Key)
    requires AllProper(runs, days) && Proper(Pending(runs, days), r)
    requires RemovedBy(Pending(runs, days), r, days, k)
    ensures Uncovered(r, k) && k !in r.protected
    ensures exists m: nat :: m < |runs| && Streak(runs, k, m) && Expired(runs[m].now, r.now, days)
  {
    hide Proper, RemovedBy, LostAt;
    RemovedIff(runs, days, r, k);
    assert LostAt(runs, days, k) > 0 && ReviewTime(Understood(LostAt(runs, days, k), r.now, k), r, k) == LostAt(runs, days, k);
    NotedStreak(runs, days, k);
    var m: nat :| Streak(runs, k, m) && runs[m].now == LostAt(runs, days, k);
    assert m < |runs| && Streak(runs, k, m) && Expired(runs[m].now, r.now, days);
  }

  /** A completed run that finds the file covered ends its streak, unless it was on the list and
      its version had its time reset: then it stays on the list, covered as it is. */
  lemma CoveredIff(runs: seq<Run>, days: nat, r: Run, k: Key)
    requires AllProper(runs, days) && Proper(Pending(runs, days), r) && r.end.Completed? && k in r.referenced
    ensures !RemovedBy(Pending(runs, days), r, days, k)
    ensures LostAt(runs + [r], days, k) > 0 <==>
      k in r.refreshed && k !in r.protected && Understood(LostAt(runs, days, k), r.now, k) > 0
  {
    hide RemovedBy;
    RemovedIff(runs, days, r, k);
    assert (runs + [r])[..|runs|] == runs;
  }

  // ---------------------------------------------------------------- runs that do not get through

  /** The runs that have a say: those that were stopped, or only failed to open the list, are left out. */
  function Effective(runs: seq<Run>): seq<Run> {
    if runs == [] then []
    else
      var r := runs[|runs| - 1];
      Effective(runs[..|runs| - 1]) + if r.end.Completed? || r.end == Unwritable(true) then [r] else []
  }

  /** Over every sequence of runs, those that were stopped do not matter: the list, the times noted
      and what the next run removes are as if they had never been started. */
  lemma {:induction false} StoppedRunsDoNotMatter(runs: seq<Run>, days: int)
    requires AllProper(runs, days)
    ensures AllProper(Effective(runs), days) && Pending(Effective(runs), days) == Pending(runs, days)
    ensures forall k :: LostAt(Effective(runs), days, k) == LostAt(runs, days, k)
    decreases |runs|
  {
    hide Proper, PendingAfter, LostAfter;
    if runs != [] {
      var init, r := runs[..|runs| - 1], runs[|runs| - 1];
      StoppedRunsDoNotMatter(init, days);
      if r.end.Completed? || r.end == Unwritable(true) {
        assert (Effective(init) + [r])[..|Effective(init)|] == Effective(init);
      } else {
        NothingChanges(Pending(init, days), r, days);
        assert Effective(init) + [] == Effective(init);
      }
    }
  }

  lemma NothingChanges(pending: string, r: Run, days: int)
    requires !r.end.Completed? && r.end != Unwritable(true)
    ensures PendingAfter(pending, r, days) == pending
    ensures forall t: nat, k :: LostAfter(t, r, days, k) == t
  {
  }

  // ---------------------------------------------------------------- files do get removed

  /** The run sees the file uncovered, and nothing keeps it from being removed. */
  predicate Loose(r: Run, k: Key) { Uncovered(r, k) && k !in r.protected && k !in r.refreshed }

  /** From run `m` on, all runs that are completed see it so, and the list is not lost. */
  predicate LooseFrom(runs: seq<Run>, m: nat, k: Key) {
    && m < |runs| && runs[m].end.Completed?
    && forall j :: m <= j < |runs| ==> runs[j].end != Unwritable(true) && (runs[j].end.Completed? ==> Loose(runs[j], k))
  }

  ghost predicate RemovedSince(runs: seq<Run>, days: int, m: nat, k: Key) {
    exists j :: m <= j < |runs| && RemovedBy(Pending(runs[..j], days), runs[j], days, k)
  }

  /** The time noted is never later than that run, until the file is removed. */
  lemma {:induction false} StillNoted(runs: seq<Run>, days: int, m: nat, k: Key)
    requires AllProper(runs, days) && LooseFrom(runs, m, k) && Tabless(k)
    ensures 0 < LostAt(runs, days, k) <= runs[m].now || RemovedSince(runs, days, m, k)
    decreases |runs|
  {
    hide Proper, RemovedBy, Uncovered;
    var init, r := runs[..|runs| - 1], runs[|runs| - 1];
    if m == |runs| - 1 {
      NotedOrRemoved(runs, days, k);
    } else {
      assert LooseFrom(init, m, k);
      StillNoted(init, days, m, k);
      if RemovedSince(init, days, m, k) {
        var j :| m <= j < |init| && RemovedBy(Pending(init[..j], days), init[j], days, k);
        assert init[..j] == runs[..j] && init[j] == runs[j];
      } else if r.end.Completed? {
        NotedOrRemoved(runs, days, k);
      }
    }
  }

  lemma NotedOrRemoved(runs: seq<Run>, days: int, k: Key)
    requires runs != [] && AllProper(runs, days) && Tabless(k)
    requires var r := runs[|runs| - 1]; r.end.Completed? && Loose(r, k)
    ensures var init, r := runs[..|runs| - 1], runs[|runs| - 1];
      || RemovedBy(Pending(init, days), r, days, k)
      || (LostAt(init, days, k) == 0 && LostAt(runs, days, k) == r.now > 0)
      || (0 < LostAt(runs, days, k) <= r.now && LostAt(runs, days, k) <= LostAt(init, days, k))
  {
    hide RemovedBy;
    RemovedIff(runs[..|runs| - 1], days, runs[|runs| - 1], k);
  }

  /** Expiration is effective, over all sequences of runs: once a file was seen uncovered, and every
      completed run since has seen it so, the first run behind the threshold removes it, unless
      one of those before has done so already. */
  lemma RemovalHappens(runs: seq<Run>, days: int, m: nat, r: Run, k: Key)
    requires AllProper(runs, days) && Proper(Pending(runs, days), r) && Tabless(k)
    requires LooseFrom(runs, m, k) && r.end.Completed? && Loose(r, k)
    requires Expired(runs[m].now, r.now, days)
    ensures RemovedBy(Pending(runs, days), r, days, k) || RemovedSince(runs, days, m, k)
  {
    hide Proper, RemovedBy, RemovedSince, AllProper;
    StillNoted(runs, days, m, k);
    RemovedIff(runs, days, r, k);
    assert r.now > 0 by { ProperNow(runs, days, r); }
  }

  lemma ProperNow(runs: seq<Run>, days: int, r: Run)
    requires Proper(Pending(runs, days), r)
    ensures r.now > 0
  {
  }
}
