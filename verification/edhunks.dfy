/** What an ed script means: all its edits at once, against the line numbers of the old file.
    Applying them one after the other, from the end to the start, comes to the same; and so does
    the patch tool, fed with the script of these edits. */
module EdHunks {
  import opened Text
  import opened EdScript

  /** Lines `from` up to `to` of the old file are replaced; none of them, if the two are equal. */
  datatype Hunk = Hunk(from: nat, to: nat, text: seq<string>)

  /** Each hunk lies before the one above it. */
  predicate Descending(hs: seq<Hunk>, size: nat) {
    && (forall i :: 0 <= i < |hs| ==> hs[i].from <= hs[i].to <= size)
    && (forall i, j :: 0 <= i < j < |hs| ==> hs[j].to <= hs[i].from)
  }

  // ---------------------------------------------------------------- all at once

  /** What is put in front of old line `i`, by all the hunks that start there. */
  function Inserted(hs: seq<Hunk>, i: nat): seq<string> {
    if hs == [] then [] else Inserted(hs[1..], i) + if hs[0].from == i then hs[0].text else []
  }

  predicate Removed(hs: seq<Hunk>, i: nat) { exists k :: 0 <= k < |hs| && hs[k].from <= i < hs[k].to }

  /** The new file, old line by old line. */
  function Edited(lines: seq<string>, hs: seq<Hunk>, i: nat): seq<string>
    requires i <= |lines|
    decreases |lines| - i
  {
    Inserted(hs, i) +
      if i == |lines| then [] else if Removed(hs, i) then Edited(lines, hs, i + 1) else [lines[i]] + Edited(lines, hs, i + 1)
  }

  // ---------------------------------------------------------------- one after the other

  function ApplyAll(lines: seq<string>, hs: seq<Hunk>): seq<string>
    requires Descending(hs, |lines|)
    decreases |hs|
  {
    if hs == [] then lines
    else
      RestDescends(lines, hs);
      ApplyAll(Splice(lines, hs[0].from, hs[0].to, hs[0].text), hs[1..])
  }

  lemma RestDescends(lines: seq<string>, hs: seq<Hunk>)
    requires hs != [] && Descending(hs, |lines|)
    ensures Descending(hs[1..], hs[0].from) && Descending(hs[1..], |Splice(lines, hs[0].from, hs[0].to, hs[0].text)|)
  {
    forall i | 0 <= i < |hs[1..]| ensures hs[1..][i].from <= hs[1..][i].to <= hs[0].from {
      assert hs[1..][i] == hs[i + 1];
    }
  }

  /** Nothing happens from `i` on. */
  predicate Below(hs: seq<Hunk>, n: nat) { forall k :: 0 <= k < |hs| ==> hs[k].from <= hs[k].to <= n }

  lemma {:induction false} NoInsert(hs: seq<Hunk>, n: nat, i: nat)
    requires Below(hs, n) && n < i
    ensures Inserted(hs, i) == []
    decreases |hs|
  {
    if hs != [] {
      assert forall k :: 0 <= k < |hs[1..]| ==> hs[1..][k] == hs[k + 1];
      NoInsert(hs[1..], n, i);
    }
  }

  lemma {:induction false} RestUnchanged(lines: seq<string>, hs: seq<Hunk>, n: nat, i: nat)
    requires Below(hs, n) && n < i <= |lines|
    ensures Edited(lines, hs, i) == lines[i..]
    decreases |lines| - i
  {
    hide Inserted;
    NoInsert(hs, n, i);
    if i < |lines| {
      assert !Removed(hs, i);
      hide Removed, Below;
      RestUnchanged(lines, hs, n, i + 1);
      assert [lines[i]] + lines[i + 1..] == lines[i..];
    }
  }

  /** From the first line a hunk does not touch: what is inserted there, and the old lines. */
  lemma FromUntouched(lines: seq<string>, hs: seq<Hunk>, i: nat)
    requires Below(hs, i) && i <= |lines|
    ensures Edited(lines, hs, i) == Inserted(hs, i) + lines[i..]
  {
    hide Inserted;
    if i < |lines| {
      RestUnchanged(lines, hs, i, i + 1);
      assert !Removed(hs, i);
      assert [lines[i]] + lines[i + 1..] == lines[i..];
    } else {
      assert lines[i..] == [];
    }
  }

  /** Inside the first hunk, nothing is inserted, and its lines go. */
  lemma Inside(lines: seq<string>, hs: seq<Hunk>, i: nat)
    requires hs != [] && Descending(hs, |lines|) && hs[0].from < i <= hs[0].to
    ensures Inserted(hs, i) == [] && hs[0].to <= |lines| && Below(hs, hs[0].to) && (i < hs[0].to ==> Removed(hs, i))
  {
    hide Descending;
    RestDescends(lines, hs);
    DescendsBelow(hs[1..], hs[0].from);
    FirstFits(hs, |lines|);
    NoInsert(hs[1..], hs[0].from, i);
  }

  lemma {:induction false} InsideFirst(lines: seq<string>, hs: seq<Hunk>, i: nat)
    requires hs != [] && Descending(hs, |lines|) && hs[0].from < i <= hs[0].to
    ensures Edited(lines, hs, i) == lines[hs[0].to..]
    decreases hs[0].to - i
  {
    hide Descending, Inserted, Removed, Below;
    Inside(lines, hs, i);
    if i == hs[0].to {
      FromUntouched(lines, hs, i);
    } else {
      InsideFirst(lines, hs, i + 1);
    }
  }

  lemma DescendsBelow(hs: seq<Hunk>, n: nat)
    requires Descending(hs, n)
    ensures Below(hs, n)
  {
  }

  lemma FirstFits(hs: seq<Hunk>, size: nat)
    requires hs != [] && Descending(hs, size)
    ensures hs[0].from <= hs[0].to <= size && Below(hs, hs[0].to)
  {
  }

  /** From the start of the first hunk on. */
  lemma AtFirst(lines: seq<string>, hs: seq<Hunk>)
    requires hs != [] && Descending(hs, |lines|)
    ensures hs[0].from <= hs[0].to <= |lines|
    ensures Edited(lines, hs, hs[0].from) == Inserted(hs[1..], hs[0].from) + hs[0].text + lines[hs[0].to..]
  {
    hide Descending, Inserted, Below, Removed, Edited;
    FirstFits(hs, |lines|);
    FirstInserted(hs);
    FromFirst(lines, hs);
  }

  lemma FromFirst(lines: seq<string>, hs: seq<Hunk>)
    requires hs != [] && Descending(hs, |lines|) && hs[0].from <= hs[0].to <= |lines|
    ensures Edited(lines, hs, hs[0].from) == Inserted(hs, hs[0].from) + lines[hs[0].to..]
  {
    hide Descending, Inserted, Below, Removed, Edited;
    FirstFits(hs, |lines|);
    var i := hs[0].from;
    if hs[0].to == i {
      FromUntouched(lines, hs, i);
    } else {
      FirstRemoved(hs);
      InsideFirst(lines, hs, i + 1);
      LineGoes(lines, hs, i);
    }
  }

  lemma LineGoes(lines: seq<string>, hs: seq<Hunk>, i: nat)
    requires i < |lines| && Removed(hs, i)
    ensures Edited(lines, hs, i) == Inserted(hs, i) + Edited(lines, hs, i + 1)
  {
    hide Inserted, Removed;
  }

  lemma FirstInserted(hs: seq<Hunk>)
    requires hs != []
    ensures Inserted(hs, hs[0].from) == Inserted(hs[1..], hs[0].from) + hs[0].text
  {
  }

  lemma FirstRemoved(hs: seq<Hunk>)
    requires hs != [] && hs[0].from < hs[0].to
    ensures Removed(hs, hs[0].from)
  {
  }

  lemma AfterFirst(lines: seq<string>, hs: seq<Hunk>)
    requires hs != [] && Descending(hs, |lines|) && hs[0].from <= hs[0].to <= |lines|
    ensures var h := hs[0];
      Edited(Splice(lines, h.from, h.to, h.text), hs[1..], h.from) == Inserted(hs[1..], h.from) + h.text + lines[h.to..]
  {
    hide Descending, Edited, Inserted, Below;
    RestDescends(lines, hs);
    DescendsBelow(hs[1..], hs[0].from);
    var next := Splice(lines, hs[0].from, hs[0].to, hs[0].text);
    FromUntouched(next, hs[1..], hs[0].from);
    assert next[hs[0].from..] == hs[0].text + lines[hs[0].to..];
    assert Inserted(hs[1..], hs[0].from) + (hs[0].text + lines[hs[0].to..]) == Inserted(hs[1..], hs[0].from) + hs[0].text + lines[hs[0].to..];
  }

  /** One step: the first hunk is carried out, the others are still to come. */
  lemma {:induction false} StepEdits(lines: seq<string>, hs: seq<Hunk>, i: nat)
    requires hs != [] && Descending(hs, |lines|) && i <= hs[0].from
    ensures hs[0].from <= hs[0].to <= |lines|
    ensures Edited(lines, hs, i) == Edited(Splice(lines, hs[0].from, hs[0].to, hs[0].text), hs[1..], i)
    decreases hs[0].from - i
  {
    hide Descending, Removed, Inserted, Splice, Below;
    FirstFits(hs, |lines|);
    if i == hs[0].from {
      AtFirst(lines, hs);
      AfterFirst(lines, hs);
    } else {
      StepEdits(lines, hs, i + 1);
      SameRemoved(hs, i);
      SameBefore(lines, hs, i);
    }
  }

  lemma SameBefore(lines: seq<string>, hs: seq<Hunk>, i: nat)
    requires hs != [] && i < hs[0].from <= hs[0].to <= |lines|
    ensures var next := Splice(lines, hs[0].from, hs[0].to, hs[0].text);
      Inserted(hs, i) == Inserted(hs[1..], i) && i < |next| && next[i] == lines[i]
  {
  }

  lemma SameRemoved(hs: seq<Hunk>, i: nat)
    requires hs != [] && i < hs[0].from
    ensures Removed(hs, i) <==> Removed(hs[1..], i)
  {
    if Removed(hs, i) {
      var k :| 0 <= k < |hs| && hs[k].from <= i < hs[k].to;
      assert hs[1..][k - 1] == hs[k];
    }
    if Removed(hs[1..], i) {
      var k :| 0 <= k < |hs[1..]| && hs[1..][k].from <= i < hs[1..][k].to;
      assert hs[k + 1] == hs[1..][k];
    }
  }

  lemma {:induction false} NoHunks(lines: seq<string>, i: nat)
    requires i <= |lines|
    ensures Edited(lines, [], i) == lines[i..]
  {
    FromUntouched(lines, [], i) by { assert Below([], i); }
    assert [] + lines[i..] == lines[i..];
  }

  /** Hunks applied one after the other, in descending order, are all carried out at once against
      the old line numbers. */
  lemma {:induction false} SequentialIsSimultaneous(lines: seq<string>, hs: seq<Hunk>)
    requires Descending(hs, |lines|)
    ensures ApplyAll(lines, hs) == Edited(lines, hs, 0)
    decreases |hs|
  {
    hide Descending;
    if hs == [] {
      NoHunks(lines, 0);
    } else {
      RestDescends(lines, hs);
      StepEdits(lines, hs, 0);
      SequentialIsSimultaneous(Splice(lines, hs[0].from, hs[0].to, hs[0].text), hs[1..]);
    }
  }

  // ---------------------------------------------------------------- as a script

  function Address(h: Hunk): string
    requires h.from < h.to
  {
    if h.to == h.from + 1 then Dec(h.from) else Dec(h.from) + "," + Dec(h.to - 1)
  }

  /** The command line of a hunk, and its lines if it has any, up to the full stop. */
  function CommandLine(h: Hunk): string
    requires 1 <= h.from <= h.to
  {
    if h.from == h.to then Dec(h.from - 1) + "a\n"
    else Address(h) + if h.text == [] then "d\n" else "c\n"
  }

  function Render(h: Hunk): string
    requires 1 <= h.from <= h.to
  {
    CommandLine(h) + if h.from < h.to && h.text == [] then "" else Concat(h.text) + ".\n"
  }

  /** A line that can stand in a script: not the full stop, and a line. */
  predicate PlainLine(l: string) {
    |l| > 0 && l[|l| - 1] == '\n' && (forall i :: 0 <= i < |l| - 1 ==> l[i] != '\n' && l[i] != '\0')
  }

  predicate TextLine(l: string) { PlainLine(l) && l != ".\n" }

  predicate Scriptable(h: Hunk) {
    1 <= h.from <= h.to < WORD && forall i :: 0 <= i < |h.text| ==> TextLine(h.text[i])
  }

  lemma NextLine(line: string, rest: string)
    requires PlainLine(line)
    ensures StrChr(line + rest, '\n') == Some(|line| - 1)
    ensures (line + rest)[..|line|] == line && (line + rest)[|line|..] == rest
  {
    hide CStr, FindChar;
    var s := line + rest;
    assert s[|line| - 1] == '\n';
    assert forall i :: 0 <= i < |line| ==> s[i] == line[i];
    CStrKeeps(s, |line|);
  }

  /** strchr and strtoul see what stands before the first NUL. */
  lemma CStrKeeps(s: string, n: nat)
    requires n <= |s| && forall i :: 0 <= i < n ==> s[i] != '\0'
    ensures |CStr(s)| >= n && CStr(s) <= s
  {
  }

  lemma OneLine(h: Hunks, line: string, rest: string)
    requires PlainLine(line)
    ensures var (n, r) := TakeLine(h, line + rest, line);
      RunPatch(h, line + rest) == if r.Patched? then RunPatch(n, rest) else r
  {
    hide TakeLine, StrChr;
    NextLine(line, rest);
  }

  /** The lines of a hunk are gathered. */
  lemma {:induction false} RunText(h: Hunks, text: seq<string>, rest: string)
    requires h.inHunk && forall i :: 0 <= i < |text| ==> TextLine(text[i])
    ensures RunPatch(h, Concat(text) + rest) == RunPatch(h.(chunk := h.chunk + text), rest)
    decreases |text|
  {
    hide RunPatch;
    if text == [] {
      assert h.chunk + text == h.chunk;
      assert Concat(text) + rest == rest;
    } else {
      OneLine(h, text[0], Concat(text[1..]) + rest);
      assert text[0] + (Concat(text[1..]) + rest) == Concat(text) + rest;
      assert TextLine(text[0]);
      RunText(h.(chunk := h.chunk + [text[0]]), text[1..], rest);
      assert h.chunk + [text[0]] + text[1..] == h.chunk + text;
    }
  }

  lemma ParseRendered(h: Hunk, more: string)
    requires 1 <= h.from <= h.to < WORD
    ensures ParseCommand(CommandLine(h) + more) ==
      Some(if h.from == h.to then Command(true, h.from - 1, h.from - 1) else Command(false, h.from, h.to - 1))
  {
    hide Dec, StrToUl;
    var tail := (if h.from == h.to then "a" else if h.text == [] then "d" else "c") + "\n" + more;
    if h.from == h.to {
      NumberOf(h.from - 1, tail);
      assert CommandLine(h) + more == Dec(h.from - 1) + tail;
    } else if h.to == h.from + 1 {
      NumberOf(h.from, tail);
      assert CommandLine(h) + more == Dec(h.from) + tail;
    } else {
      NumberOf(h.from, "," + (Dec(h.to - 1) + tail));
      NumberOf(h.to - 1, tail);
      assert CommandLine(h) + more == Dec(h.from) + ("," + (Dec(h.to - 1) + tail));
      assert ("," + (Dec(h.to - 1) + tail))[1..] == Dec(h.to - 1) + tail;
    }
  }

  lemma CommandIsLine(h: Hunk)
    requires 1 <= h.from <= h.to
    ensures var c := CommandLine(h);
      PlainLine(c) && |c| > 2 && IsDigit(c[0]) && (c[|c| - 2] == 'd' <==> h.from < h.to && h.text == [])
  {
    hide Dec;
    var c := CommandLine(h);
    if h.from == h.to {
      assert c == Dec(h.from - 1) + "a\n";
    } else if h.to == h.from + 1 {
      assert c == Dec(h.from) + if h.text == [] then "d\n" else "c\n";
    } else {
      assert c == Dec(h.from) + "," + Dec(h.to - 1) + if h.text == [] then "d\n" else "c\n";
    }
  }

  /** The number of the last line a hunk names. */
  function LastNamed(h: Hunk): nat
    requires 1 <= h.from <= h.to
  {
    if h.from == h.to then h.from - 1 else h.to - 1
  }

  /** The script goes on behind a hunk that was carried out, and ends with one that was not. */
  ghost predicate GoesOn(lines: seq<string>, mark: nat, command: Option<string>, h: Hunk, rest: string, r: Outcome)
    requires Scriptable(h)
  {
    var all := RunPatch(Hunks(lines, mark, command, false, []), Render(h) + rest);
    if r.Patched? then exists c :: all == RunPatch(Hunks(r.lines, r.mark, c, false, []), rest) else all == r
  }

  /** A rendered hunk, read back, is one call of the engine for its command. */
  lemma RunRendered(lines: seq<string>, mark: nat, command: Option<string>, h: Hunk, rest: string) returns (r: Outcome)
    requires Scriptable(h)
    ensures GoesOn(lines, mark, command, h, rest, r)
    ensures exists more :: r == Chunk(lines, CommandLine(h) + more, h.text)
  {
    hide RunPatch, CommandLine, ParseCommand, Chunk;
    var st := Hunks(lines, mark, command, false, []);
    var line := CommandLine(h);
    var body := if h.from < h.to && h.text == [] then "" else Concat(h.text) + ".\n";
    var more := body + rest;
    assert Render(h) + rest == line + more;
    CommandIsLine(h);
    OneLine(st, line, more);
    assert !(SUBST <= line) by { assert SUBST[0] == 's'; }
    var o := st.(command := Some(line + more), inHunk := true);
    r := Chunk(lines, line + more, h.text);
    if h.from < h.to && h.text == [] {
      assert more == rest;
      assert TakeLine(st, line + more, line) == Close(o);
    } else {
      assert TakeLine(st, line + more, line).0 == o;
      assert more == Concat(h.text) + (".\n" + rest);
      RunText(o, h.text, ".\n" + rest);
      var g := o.(chunk := o.chunk + h.text);
      assert g.chunk == h.text;
      OneLine(g, ".\n", rest);
      assert TakeLine(g, ".\n" + rest, ".\n") == Close(g);
    }
    assert RunPatch(st, Render(h) + rest) ==
      if r.Patched? then RunPatch(Hunks(r.lines, r.mark, Some(line + more), false, []), rest) else r;
  }

  /** A rendered hunk is carried out exactly if all the lines it names are there. One whose last
      line is just behind the end passes the range test as well, and reaches outside of the lines;
      any other ends the script with an error. */
  lemma RunHunk(lines: seq<string>, mark: nat, command: Option<string>, h: Hunk, rest: string)
    requires Scriptable(h)
    ensures var all := RunPatch(Hunks(lines, mark, command, false, []), Render(h) + rest);
      if LastNamed(h) < |lines| then
        h.to <= |lines| && exists m, c :: all == RunPatch(Hunks(Splice(lines, h.from, h.to, h.text), m, c, false, []), rest)
      else all == if LastNamed(h) == |lines| then Undefined else Rejected
  {
    hide RunPatch, CommandLine, ParseCommand, Render;
    var r := RunRendered(lines, mark, command, h, rest);
    var more :| r == Chunk(lines, CommandLine(h) + more, h.text);
    ParseRendered(h, more);
    if r.Patched? {
      var c :| RunPatch(Hunks(lines, mark, command, false, []), Render(h) + rest) == RunPatch(Hunks(r.lines, r.mark, c, false, []), rest);
    }
  }

  /** The line number a hunk leaves behind for the command that mends its last line. */
  function MarkAfter(h: Hunk): int {
    if h.from == h.to then h.from - 1
    else h.from + if |h.text| < h.to - h.from then |h.text| else h.to - h.from
  }

  lemma MendedIs(all: seq<string>, m: nat, last: nat)
    requires last < |all| && all[last] == "..\n"
    ensures all != all[last := ".\n"]
    ensures m < |all| ==> (all[m := ".\n"] == all[last := ".\n"] <==> m == last)
  {
    var want := all[last := ".\n"];
    assert want[last] == ".\n" && |all[last]| == 3;
    if m < |all| && m != last { assert all[m := ".\n"][last] == "..\n"; }
  }

  /** What `s/.//` does with the line of that number. */
  ghost predicate MendsLine(all: seq<string>, m: int, n: Hunks, o: Outcome) {
    if m == 0 then o.Patched? && n.lines == all
    else if 0 < m < |all| then o.Patched? && n.lines == all[m := ".\n"] else o.Undefined?
  }

  lemma RunMend(lines: seq<string>, mark: nat, command: Option<string>, h: Hunk, rest: string) returns (n: Hunks, o: Outcome)
    requires Scriptable(h) && LastNamed(h) < |lines|
    ensures RunPatch(Hunks(lines, mark, command, false, []), Render(h) + (SUBST + rest)) == if o.Patched? then RunPatch(n, rest) else o
    ensures MendsLine(Splice(lines, h.from, h.to, h.text), MarkAfter(h), n, o)
  {
    hide RunPatch, CommandLine, ParseCommand, Render, Splice;
    var r := RunRendered(lines, mark, command, h, SUBST + rest);
    var more :| r == Chunk(lines, CommandLine(h) + more, h.text);
    ParseRendered(h, more);
    assert r.Patched? && r.lines == Splice(lines, h.from, h.to, h.text) && r.mark == MarkAfter(h);
    var c :| RunPatch(Hunks(lines, mark, command, false, []), Render(h) + (SUBST + rest)) == RunPatch(Hunks(r.lines, r.mark, c, false, []), SUBST + rest);
    var st := Hunks(r.lines, r.mark, c, false, []);
    OneLine(st, SUBST, rest);
    n, o := TakeLine(st, SUBST + rest, SUBST).0, TakeLine(st, SUBST + rest, SUBST).1;
  }

  /** A line that is a full stop is written as two, and mended by `s/.//` behind the hunk. That
      reaches the line exactly if the hunk changes lines, and brings one more than it takes. Else
      it is another line that becomes a full stop, or none, or one outside. */
  lemma MendsIff(lines: seq<string>, mark: nat, command: Option<string>, h: Hunk, rest: string) returns (n: Hunks, o: Outcome)
    requires Scriptable(h) && LastNamed(h) < |lines| && h.text != [] && h.text[|h.text| - 1] == "..\n"
    ensures RunPatch(Hunks(lines, mark, command, false, []), Render(h) + (SUBST + rest)) == if o.Patched? then RunPatch(n, rest) else o
    ensures MendsLine(Splice(lines, h.from, h.to, h.text), MarkAfter(h), n, o)
    ensures o.Patched? && n.lines == Splice(lines, h.from, h.to, h.text)[h.from + |h.text| - 1 := ".\n"] <==>
      h.from < h.to && |h.text| == h.to - h.from + 1
  {
    n, o := RunMend(lines, mark, command, h, rest);
    hide RunPatch, Render, Scriptable;
    var all, last := Splice(lines, h.from, h.to, h.text), h.from + |h.text| - 1;
    assert |all| == |lines| - (h.to - h.from) + |h.text| && all[last] == "..\n";
    hide Splice;
    if MarkAfter(h) >= 0 { MendedIs(all, MarkAfter(h), last); }
  }

  /** Changing the first of two lines to a full stop leaves two of them there, and makes the
      second line one. */
  lemma MendsTheNext()
    ensures
      var r := PatchFile("a\nb\n", "1c\n..\n.\ns/.//\n");
      r.Patched? && r.lines == ["", "..\n", ".\n"]
  {
    var h := Hunk(1, 2, ["..\n"]);
    TwoLines();
    TheScript(h);
    AfterHunk(["", "a\n", "b\n"], h);
    hide CommandLine, RunPatch, Render, Splice, SplitLines, Scriptable;
    var n, o := RunMend(["", "a\n", "b\n"], 0, None, h, "");
    NothingLeft(n);
  }

  lemma AfterHunk(lines: seq<string>, h: Hunk)
    requires lines == ["", "a\n", "b\n"] && h == Hunk(1, 2, ["..\n"])
    ensures var all := Splice(lines, 1, 2, h.text); |all| == 3 && all[2 := ".\n"] == ["", "..\n", ".\n"]
  {
    var all := Splice(lines, 1, 2, h.text);
    assert all == [lines[0]] + h.text + [lines[2]];
  }

  lemma TwoLines()
    ensures [""] + SplitLines("a\nb\n") == ["", "a\n", "b\n"]
  {
    NextLine("a\n", "b\n");
    NextLine("b\n", "");
    hide StrChr;
    assert "a\n" + "b\n" == "a\nb\n" && "b\n" + "" == "b\n";
    assert SplitLines("b\n") == ["b\n"] + SplitLines("");
    assert SplitLines("a\nb\n") == ["a\n"] + SplitLines("b\n");
  }

  lemma TheScript(h: Hunk)
    requires h == Hunk(1, 2, ["..\n"])
    ensures Scriptable(h) && Render(h) + (SUBST + "") == "1c\n..\n.\ns/.//\n"
  {
    RenderOne(h);
    hide Render, Scriptable;
  }

  lemma RenderOne(h: Hunk)
    requires h == Hunk(1, 2, ["..\n"])
    ensures Render(h) == "1c\n..\n.\n" && Scriptable(h)
  {
    assert Dec(1) == "1";
    assert CommandLine(h) == "1" + "c\n";
    assert Concat(h.text) == "..\n" + Concat([]) by { assert h.text[1..] == []; }
  }

  /** Deleting the line behind the last one is not refused. */
  lemma BehindTheEnd()
    ensures PatchFile("x\n", "2d\n").Undefined?
  {
    var h := Hunk(2, 3, []);
    assert Dec(2) == "2";
    assert RenderAll([h]) == "2d\n" + "" == "2d\n" by { assert [h][1..] == []; assert CommandLine(h) == "2" + "d\n"; }
    assert SplitLines("x\n") == ["x\n"] by {
      NextLine("x\n", "");
      assert "x\n" + "" == "x\n";
    }
    RunHunk(["", "x\n"], 0, None, h, "");
    assert Render(h) + "" == "2d\n" by { assert CommandLine(h) == "2" + "d\n"; }
  }

  function RenderAll(hs: seq<Hunk>): string
    requires AllScriptable(hs)
  {
    if hs == [] then "" else RestScriptable(hs); Render(hs[0]) + RenderAll(hs[1..])
  }

  predicate AllScriptable(hs: seq<Hunk>) { forall i :: 0 <= i < |hs| ==> Scriptable(hs[i]) }

  lemma RestScriptable(hs: seq<Hunk>)
    requires hs != [] && AllScriptable(hs)
    ensures Scriptable(hs[0]) && AllScriptable(hs[1..])
  {
  }

  lemma {:induction false} RunAll(lines: seq<string>, mark: nat, command: Option<string>, hs: seq<Hunk>)
    requires Descending(hs, |lines|) && AllScriptable(hs)
    ensures var r := RunPatch(Hunks(lines, mark, command, false, []), RenderAll(hs));
      r.Patched? && r.lines == ApplyAll(lines, hs)
    decreases |hs|
  {
    hide Render, Splice, Descending, AllScriptable, RunPatch;
    if hs == [] {
      NothingLeft(Hunks(lines, mark, command, false, []));
    } else {
      RestDescends(lines, hs);
      RestScriptable(hs);
      FirstFits(hs, |lines|);
      var next := Splice(lines, hs[0].from, hs[0].to, hs[0].text);
      RunHunk(lines, mark, command, hs[0], RenderAll(hs[1..]));
      var m, c :| RunPatch(Hunks(lines, mark, command, false, []), Render(hs[0]) + RenderAll(hs[1..])) ==
                  RunPatch(Hunks(next, m, c, false, []), RenderAll(hs[1..]));
      RunAll(next, m, c, hs[1..]);
    }
  }

  lemma NothingLeft(h: Hunks)
    ensures RunPatch(h, "") == Patched(h.lines, h.mark)
  {
  }

  /** The tool, given a file and the script of some edits in descending order, carries out all of
      them at once against the numbers of the old lines, whatever the contents of the file. (Line
      0 is the empty one that stands before the first.) */
  lemma PatchesAsMeant(base: string, hs: seq<Hunk>)
    requires AllScriptable(hs) && Descending(hs, 1 + |SplitLines(base)|)
    ensures
      var orig := [""] + SplitLines(base);
      var r := PatchFile(base, RenderAll(hs));
      && Concat(orig) == base
      && r.Patched? && r.lines == Edited(orig, hs, 0)
  {
    var orig := [""] + SplitLines(base);
    ConcatOfSplit(base);
    assert Concat(orig) == "" + Concat(SplitLines(base)) by { assert orig[1..] == SplitLines(base); }
    RunAll(orig, 0, None, hs);
    SequentialIsSimultaneous(orig, hs);
  }
}
