/** The expiration task as the object it is in src/expiration.cc: its table is filled, thinned
    out, restamped and written back in loops, which do what the functions in Expiration say. */
module ExpirationTask {
  import opened Text
  import opened Expiration

  /** The position after the last slash. */
  function NameStart(path: string): (n: nat)
    ensures n <= |path| && (n > 0 ==> path[n - 1] == '/') && '/' !in path[n..]
  {
    if path == "" then 0
    else if path[|path| - 1] == '/' then |path|
    else NameStart(path[..|path| - 1])
  }

  const HEAD: string := ".head"

  predicate IsHead(path: string) { |path| >= |HEAD| && path[|path| - |HEAD|..] == HEAD }

  /** Path names the scan passes over, by their looks. */
  predicate Odd(path: string) {
    || path == ""
    || exists c :: c in path && (c == '\r' || c == '\n' || c == '\'' || c == '"' || c == '<' || c == '>' || c == '{' || c == '}')
  }

  function KeyOf(path: string): Key {
    var cut := NameStart(path);
    var end := if IsHead(path) && |path| - |HEAD| >= cut then |path| - |HEAD| else |path|;
    Key(path[..cut], path[cut..end])
  }

  /** The key stands for the file (or the file its head belongs to): the path is put together
      again from it. */
  lemma KeyStandsFor(path: string)
    ensures var k := KeyOf(path);
      '/' !in k.file && (path == k.dir + k.file || path == k.dir + k.file + HEAD)
  {
    hide NameStart;
    var cut := NameStart(path);
    var tail := path[cut..];
    assert path == path[..cut] + tail;
    if IsHead(path) && |path| - |HEAD| >= cut {
      var file := path[cut..|path| - |HEAD|];
      assert tail == file + HEAD;
      assert path[..cut] + (file + HEAD) == path[..cut] + file + HEAD;
      assert forall c :: c in file ==> c in tail;
    }
  }

  /** Its names are as the list needs them. */
  lemma KeyIsClean(path: string)
    requires !Odd(path) && '\0' !in path
    ensures Clean(KeyOf(path))
  {
    hide NameStart;
    var k := KeyOf(path);
    forall c | c in k.dir || c in k.file ensures c in path {}
  }

  /** A file the scan comes by; `index` and `volatile` say what its name makes it. */
  datatype Seen = Seen(path: string, index: bool, volatile: bool)

  predicate Admitted(f: Seen, internals: bool) {
    !Odd(f.path) && (f.path[0] != '_' || internals) && (IsHead(f.path) || f.index || !f.volatile)
  }

  function Found(files: seq<Seen>, internals: bool): set<Key> {
    set f | f in files && Admitted(f, internals) :: KeyOf(f.path)
  }

  /** An index mentions this name, in the given directory if that counts; `uncovered` is the verdict
      on the candidates of that name. */
  datatype Mention = Mention(name: string, dir: string, byPath: bool, uncovered: Key -> bool)

  predicate Covers(e: Mention, k: Key) { k.file == e.name && (e.byPath ==> k.dir == e.dir) && !e.uncovered(k) }

  predicate IsCovered(entries: seq<Mention>, k: Key) {
    exists i :: 0 <= i < |entries| && Covers(entries[i], k)
  }

  /** The list is opened, or unlinked, if that works, and opened then. */
  datatype ListFile = ListFile(opens: bool, unlinks: bool, opensThen: bool)

  class Expirer {
    var trash: Table
    var pending: string
    // what was unlinked, with its head
    var removed: set<Key>
    const now: int
    const days: int
    const internals: bool

    constructor (now: int, days: int, internals: bool, pending: string)
      ensures trash == map[] && this.pending == pending && removed == {}
      ensures this.now == now && this.days == days && this.internals == internals
    {
      trash, removed := map[], {};
      this.pending, this.now, this.days, this.internals := pending, now, days, internals;
    }

    /** ProcessRegular. */
    method ProcessRegular(f: Seen)
      modifies `trash
      ensures trash == if Admitted(f, internals) then old(trash)[KeyOf(f.path) := now] else old(trash)
    {
      if Odd(f.path) { return; }
      if f.path[0] == '_' && !internals { return; }
      if !IsHead(f.path) && !f.index && f.volatile { return; }
      trash := trash[KeyOf(f.path) := now];
    }

    /** BuildCacheFileList: all files, or those before a stop signal. */
    method BuildCacheFileList(files: seq<Seen>)
      requires trash == map[]
      modifies `trash
      ensures trash == map k | k in Found(files, internals) :: now
    {
      hide Admitted, KeyOf;
      for i := 0 to |files|
        invariant trash == map k | k in Found(files[..i], internals) :: now
      {
        assert files[..i + 1] == files[..i] + [files[i]];
        ProcessRegular(files[i]);
      }
      assert files[..|files|] == files;
    }

    /** HandlePkgEntry: candidates of that name that are found covered (anywhere, or in the given
        directory) are taken off the table. The release files take theirs off in the same way. */
    method HandlePkgEntry(e: Mention)
      modifies `trash
      ensures trash == map k | k in old(trash) && !Covers(e, k) :: old(trash)[k]
    {
      var todo := set k | k in trash && k.file == e.name && (e.byPath ==> k.dir == e.dir);
      ghost var all := todo;
      while todo != {}
        invariant todo <= all
        invariant trash == map k | k in old(trash) && (k !in all || k in todo || e.uncovered(k)) :: old(trash)[k]
        decreases todo
      {
        var k :| k in todo;
        if !e.uncovered(k) { trash := trash - {k}; }
        todo := todo - {k};
      }
    }

    method HandleAll(entries: seq<Mention>)
      modifies `trash
      ensures trash == map k | k in old(trash) && !IsCovered(entries, k) :: old(trash)[k]
    {
      hide Covers;
      for i := 0 to |entries|
        invariant trash == map k | k in old(trash) && !IsCovered(entries[..i], k) :: old(trash)[k]
      {
        forall k ensures IsCovered(entries[..i + 1], k) <==> IsCovered(entries[..i], k) || Covers(entries[i], k) {
          OneMoreEntry(entries, i, k);
        }
        HandlePkgEntry(entries[i]);
      }
      assert entries[..|entries|] == entries;
    }

    static lemma OneMoreEntry(entries: seq<Mention>, i: nat, k: Key)
      requires i < |entries|
      ensures IsCovered(entries[..i + 1], k) <==> IsCovered(entries[..i], k) || Covers(entries[i], k)
    {
      hide Covers;
      if Covers(entries[i], k) { assert entries[..i + 1][i] == entries[i]; }
      if IsCovered(entries[..i], k) {
        var n :| 0 <= n < i && Covers(entries[..i][n], k);
        assert entries[..i + 1][n] == entries[..i][n];
      }
      if IsCovered(entries[..i + 1], k) {
        var n :| 0 <= n < i + 1 && Covers(entries[..i + 1][n], k);
        assert n < i ==> entries[..i][n] == entries[..i + 1][n];
      }
    }

    /** LoadPreviousData. */
    method LoadPreviousData()
      modifies `trash
      ensures trash == Load(old(trash), LinesOf(pending), now)
    {
      hide ParseEntry;
      var lines, i := LinesOf(pending), 0;
      while i < |lines|
        invariant 0 <= i <= |lines| && Load(trash, lines[i..], now) == Load(old(trash), lines, now)
      {
        var e := ParseEntry(lines[i], now);
        ghost var next := LoadOne(trash, lines[i], now);
        assert Load(trash, lines[i..], now) == Load(next, lines[i + 1..], now);
        assert lines[i..][1..] == lines[i + 1..];
        if e.Some? {
          var (k, t) := e.value;
          if k !in trash { trash := trash[k := 0]; }
          if trash[k] > 0 { trash := trash[k := t]; }
        }
        assert trash == next;
        i := i + 1;
      }
      assert lines[i..] == [];
    }

    /** RemoveAndStoreStatus without purging. */
    method RemoveAndStoreStatus(r: Run, list: ListFile) returns (end: End)
      requires r.now == now && NoRepeats(r.order)
      modifies this
      ensures end == if list.opens || list.opensThen then Completed else Unwritable(list.unlinks)
      ensures end.Completed? ==> var m := Refresh(old(trash), r);
        && trash == m && pending == PrintAll(Tagged(m, r, days, r.order))
        && removed == old(removed) + set k | k in r.order && Removes(m, r, days, k)
      ensures !end.Completed? ==> removed == old(removed) && pending == if end.unlinked then "" else old(pending)
    {
      trash := Refresh(trash, r);
      if !list.opens {
        if list.unlinks { pending := ""; }
        if !list.opensThen { return Unwritable(list.unlinks); }
      }
      StoreAll(r);
      return Completed;
    }

    /** The walk through the table, with the list truncated and open. */
    method StoreAll(r: Run)
      requires r.now == now && NoRepeats(r.order)
      modifies `pending, `removed
      ensures pending == PrintAll(Tagged(trash, r, days, r.order))
      ensures removed == old(removed) + set k | k in r.order && Removes(trash, r, days, k)
    {
      hide PrintEntry, PrintAll, Tagged;
      pending := "";
      var i := 0;
      assert r.order[0..] == r.order && "" + PrintAll(Tagged(trash, r, days, r.order)) == PrintAll(Tagged(trash, r, days, r.order));
      while i < |r.order|
        invariant 0 <= i <= |r.order|
        invariant pending + PrintAll(Tagged(trash, r, days, r.order[i..])) == PrintAll(Tagged(trash, r, days, r.order))
        invariant removed == old(removed) + set k | k in r.order[..i] && Removes(trash, r, days, k)
      {
        var k := r.order[i];
        OneTagged(trash, r, days, r.order, i, pending);
        assert r.order[..i + 1] == r.order[..i] + [k];
        i := i + 1;
        if k !in trash || k in r.protected || trash[k] <= 0 { continue; }
        if Expired(trash[k], now, days) {
          removed := removed + {k};
        } else {
          pending := pending + (PrintEntry(k, trash[k]) + "\n");
        }
      }
      assert r.order[..i] == r.order && r.order[i..] == [];
      NoneTagged(trash, r, days, pending);
    }

    static lemma NoneTagged(m: Table, r: Run, days: int, done: string)
      ensures done + PrintAll(Tagged(m, r, days, [])) == done
    {
    }

    /** The next file is tagged and printed, or it is not. */
    static lemma OneTagged(m: Table, r: Run, days: int, order: seq<Key>, i: nat, done: string)
      requires i < |order|
      ensures var rest, k := PrintAll(Tagged(m, r, days, order[i + 1..])), order[i];
        done + PrintAll(Tagged(m, r, days, order[i..])) ==
          (if Keeps(m, r, days, k) then done + (PrintEntry(k, m[k]) + "\n") else done) + rest
    {
      hide PrintEntry;
      assert order[i..][1..] == order[i + 1..] && order[i..][0] == order[i];
      var k, rest := order[i], Tagged(m, r, days, order[i + 1..]);
      if Keeps(m, r, days, k) {
        assert ([Entry(k, m[k])] + rest)[1..] == rest;
        assert done + (PrintEntry(k, m[k]) + "\n" + PrintAll(rest)) == done + (PrintEntry(k, m[k]) + "\n") + PrintAll(rest);
      }
    }

    /** Action without purging. It looks for the stop signal or for errors after the scan, after the
        volatile files are brought up to date, after the release files and after the other indexes
        (`stops`); what it reads of those it is stopped in does not matter. However it ends, list
        and files are as the specification says for a run that has seen these files and entries. */
    method Action(files: seq<Seen>, hashes: seq<Mention>, entries: seq<Mention>, stops: seq<bool>,
                  protected: set<Key>, refreshed: set<Key>, order: seq<Key>, list: ListFile) returns (end: End)
      requires trash == map[] && removed == {} && NoRepeats(order) && |stops| == 4
      modifies this
      ensures end == if true in stops then Stopped else if list.opens || list.opensThen then Completed else Unwritable(list.unlinks)
      ensures var present := Found(files, internals);
        var covered := set k | k in present && (IsCovered(hashes, k) || IsCovered(entries, k));
        var r := Run(now, present, covered, protected, refreshed, order, end);
        && pending == PendingAfter(old(pending), r, days)
        && forall k :: k in removed <==> RemovedBy(old(pending), r, days, k)
    {
      hide Load, LinesOf, Tagged, PrintAll, IsCovered, Found, Removes, Refresh;
      BuildCacheFileList(files);
      if stops[0] { return Stopped; }
      if stops[1] { return Stopped; }
      HandleAll(hashes);
      if stops[2] { return Stopped; }
      HandleAll(entries);
      if stops[3] { return Stopped; }
      var r := Run(now, Found(files, internals), {}, protected, refreshed, order, Completed);
      ghost var covered := set k | k in r.present && (IsCovered(hashes, k) || IsCovered(entries, k));
      assert trash == Scanned(r.(referenced := covered));
      LoadPreviousData();
      SameRefresh(trash, r, r.(referenced := covered));
      SameTagged(Refresh(trash, r), r, r.(referenced := covered), days, order);
      end := RemoveAndStoreStatus(r, list);
    }

    /** Reviewing the table does not ask for the files and indexes of the run again. */
    static lemma SameRefresh(m: Table, a: Run, b: Run)
      requires a.now == b.now && a.refreshed == b.refreshed
      ensures Refresh(m, a) == Refresh(m, b)
    {
    }

    static lemma {:induction false} SameTagged(m: Table, a: Run, b: Run, days: int, order: seq<Key>)
      requires a.now == b.now && a.protected == b.protected
      ensures Tagged(m, a, days, order) == Tagged(m, b, days, order)
      ensures forall k :: Removes(m, a, days, k) <==> Removes(m, b, days, k)
      decreases |order|
    {
      if order != [] { SameTagged(m, a, b, days, order[1..]); }
    }
  }
}
