/** The ed-script engine of acngtool (patchChunk and patch_file in src/acngtool.cc). */
module EdScript {
  import opened Text

  // ---------------------------------------------------------------- one command

  datatype Command = Command(append: bool, start: nat, last: nat)

  /** The address and letter of a command; the text goes on behind it. */
  function ParseCommand(s: string): Option<Command> {
    var a := StrToUl(s);
    if a.None? || a.value.1 == "" then None
    else
      var (n, rest) := a.value;
      if rest[0] == ',' then
        var b := StrToUl(rest[1..]);
        if b.None? || b.value.1 == "" || (b.value.1[0] != 'c' && b.value.1[0] != 'd') then None
        else Some(Command(false, n, b.value.0))
      else if rest[0] == 'a' then Some(Command(true, n, n))
      else if rest[0] == 'c' || rest[0] == 'd' then Some(Command(false, n, n))
      else None
  }

  /** Lines `from` up to `to` make way for others. */
  function Splice(lines: seq<string>, from: nat, to: nat, text: seq<string>): seq<string>
    requires from <= to <= |lines|
  {
    lines[..from] + text + lines[to..]
  }

  /** `mark` is the line number the command leaves behind. Undefined: the range test admits one
      line too many, and the access is outside the sequence. */
  datatype Outcome = Patched(lines: seq<string>, mark: nat) | Rejected | Undefined

  function Chunk(lines: seq<string>, pline: string, payload: seq<string>): Outcome {
    var c := ParseCommand(pline);
    if c.None? || c.value.start > |lines| || c.value.last > |lines| || c.value.start > c.value.last then Rejected
    else if c.value.last == |lines| then Undefined
    else
      var Command(append, start, last) := c.value;
      if append then Patched(Splice(lines, start + 1, start + 1, payload), start)
      else
        var n := last - start + 1;
        Patched(Splice(lines, start, last + 1, payload), start + if |payload| < n then |payload| else n)
  }

  /** How a call ends: it did what it should, it gave up, or it reached outside of its data. */
  datatype Ending = Applied | Refused | Outside

  function EndOf(r: Outcome): Ending {
    match r case Patched(_, _) => Applied case Rejected => Refused case Undefined => Outside
  }

  // ---------------------------------------------------------------- one file

  function StrChr(s: string, c: char): (r: Option<nat>)
    ensures r.Some? ==> r.value < |s| && s[r.value] == c
  {
    var k := FindChar(CStr(s), c);
    if k.Some? then k else None
  }

  /** The lines of a file, each with its newline; behind a NUL byte there are no more of them. */
  function SplitLines(s: string): seq<string>
    decreases |s|
  {
    if s == "" then []
    else
      var k := StrChr(s, '\n');
      if k.None? then [s] else [s[..k.value + 1]] + SplitLines(s[k.value + 1..])
  }

  /** Nothing of the file is lost or added by splitting it. */
  lemma {:induction false} ConcatOfSplit(s: string)
    ensures Concat(SplitLines(s)) == s
    decreases |s|
  {
    hide StrChr;
    if s != "" {
      var k := StrChr(s, '\n');
      if k.Some? {
        ConcatOfSplit(s[k.value + 1..]);
        assert SplitLines(s)[1..] == SplitLines(s[k.value + 1..]);
        assert s[..k.value + 1] + s[k.value + 1..] == s;
      } else {
        assert SplitLines(s)[1..] == [];
        assert Concat([]) == "" && s + "" == s;
      }
    }
  }

  /** The patch loop between two lines: the file so far, the last line number, where the current
      or last command begins, whether it is still open, and its lines. */
  datatype Hunks = Hunks(lines: seq<string>, mark: nat, command: Option<string>, inHunk: bool, chunk: seq<string>)

  const SUBST: string := "s/.//\n"

  function Close(h: Hunks): (Hunks, Outcome) {
    var r := if h.command.None? then Undefined else Chunk(h.lines, h.command.value, h.chunk);
    if r.Patched? then (Hunks(r.lines, r.mark, h.command, false, []), r) else (h, r)
  }

  /** One line of the patch, with the text that starts there. */
  function TakeLine(h: Hunks, rest: string, line: string): (Hunks, Outcome)
    requires line != ""
  {
    var same := Patched(h.lines, h.mark);
    if |line| == 2 && line[0] == '.' then Close(h)
    else if h.inHunk then (h.(chunk := h.chunk + [line]), same)
    else if SUBST <= line then
      if h.mark == 0 then (h, same)
      else if h.mark < |h.lines| then (h.(lines := h.lines[h.mark := ".\n"]), same)
      else (h, Undefined)
    else if line[0] == 'w' then (h, same)
    else
      var o := h.(command := Some(rest), inHunk := true);
      if |line| > 2 && line[|line| - 2] == 'd' then Close(o) else (o, same)
  }

  function RunPatch(h: Hunks, rest: string): Outcome
    decreases |rest|
  {
    if rest == "" then Patched(h.lines, h.mark)
    else
      var k := StrChr(rest, '\n');
      if k.None? then Undefined
      else
        var (n, r) := TakeLine(h, rest, rest[..k.value + 1]);
        if r.Patched? then RunPatch(n, rest[k.value + 1..]) else r
  }

  /** patch_file, from the contents of the two files; an empty line stands before the first. */
  function PatchFile(base: string, patch: string): Outcome {
    RunPatch(Hunks([""] + SplitLines(base), 0, None, false, []), patch)
  }

  // ---------------------------------------------------------------- in place

  /** The first `i` lines of the payload have taken the places from `start` on. */
  function Overwritten(was: seq<string>, start: nat, payload: seq<string>, i: nat): seq<string>
    requires start + i <= |was| && i <= |payload|
  {
    was[..start] + payload[..i] + was[start + i..]
  }

  lemma OverwriteOne(was: seq<string>, start: nat, payload: seq<string>, i: nat)
    requires start + i < |was| && i < |payload|
    ensures Overwritten(was, start, payload, i)[start + i := payload[i]] == Overwritten(was, start, payload, i + 1)
  {
  }

  lemma OverwriteEnds(was: seq<string>, start: nat, payload: seq<string>, i: nat)
    requires start + i <= |was| && i <= |payload|
    ensures var now := Overwritten(was, start, payload, i);
      && now[..start + i] + payload[i..] + now[start + i..] == Splice(was, start, start + i, payload)
      && (i == |payload| ==> forall k :: start + i <= k <= |was| ==> now[..start + i] + now[k..] == Splice(was, start, k, payload))
  {
    var now := Overwritten(was, start, payload, i);
    assert now[..start + i] == was[..start] + payload[..i];
    assert payload[..i] + payload[i..] == payload;
    if i == |payload| {
      forall k | start + i <= k <= |was| ensures now[..start + i] + now[k..] == Splice(was, start, k, payload) {
        assert now[k..] == was[k..];
      }
    }
  }

  class Patcher {
    var idx: seq<string>
    var rangeStart: nat
    var rangeLast: nat

    constructor (lines: seq<string>)
      ensures idx == lines && rangeStart == 0
    {
      idx, rangeStart, rangeLast := lines, 0, 0;
    }

    /** The second half of patchChunk, for `c` and `d`: overwrite what there is room for, then
        insert the rest or erase what is left. */
    method Replace(payload: seq<string>)
      requires rangeStart <= rangeLast < |idx|
      modifies `idx, `rangeStart
      ensures idx == Splice(old(idx), old(rangeStart), rangeLast + 1, payload)
      ensures var n := rangeLast - old(rangeStart) + 1; rangeStart == old(rangeStart) + if |payload| < n then |payload| else n
    {
      hide Overwritten, Splice;
      ghost var was, start := idx, rangeStart;
      var i := 0;
      assert idx == Overwritten(was, start, payload, 0) by { OverwriteNone(was, start, payload); }
      while i < |payload| && rangeStart <= rangeLast
        invariant 0 <= i <= |payload| && rangeStart == start + i <= rangeLast + 1 <= |was|
        invariant |idx| == |was| && idx == Overwritten(was, start, payload, i)
      {
        OverwriteOne(was, start, payload, i);
        idx := idx[rangeStart := payload[i]];
        i := i + 1;
        rangeStart := rangeStart + 1;
      }
      OverwriteEnds(was, start, payload, i);
      if i < |payload| {
        idx := idx[..rangeStart] + payload[i..] + idx[rangeStart..];
      } else if rangeStart != rangeLast + 1 {
        idx := idx[..rangeStart] + idx[rangeLast + 1..];
      } else {
        assert idx == idx[..rangeStart] + idx[rangeLast + 1..];
      }
    }

    static lemma OverwriteNone(was: seq<string>, start: nat, payload: seq<string>)
      requires start <= |was|
      ensures Overwritten(was, start, payload, 0) == was
    {
    }

    method PatchChunk(pline: string, payload: seq<string>) returns (end: Ending)
      modifies this
      ensures var r := Chunk(old(idx), pline, payload);
        end == EndOf(r) && (r.Patched? ==> idx == r.lines && rangeStart == r.mark) && (!r.Patched? ==> idx == old(idx))
    {
      hide ParseCommand;
      var command := ParseCommand(pline);
      if command.None? { return Refused; }
      rangeStart, rangeLast := command.value.start, command.value.last;
      if rangeStart > |idx| || rangeLast > |idx| || rangeStart > rangeLast { return Refused; }
      if rangeLast == |idx| { return Outside; }
      if command.value.append {
        idx := idx[..rangeStart + 1] + payload + idx[rangeStart + 1..];
      } else {
        Replace(payload);
      }
      return Applied;
    }

    /** The patch loop of patch_file. */
    method RunScript(patch: string) returns (end: Ending)
      modifies this
      ensures var r := RunPatch(Hunks(old(idx), old(rangeStart), None, false, []), patch);
        end == EndOf(r) && (r.Patched? ==> idx == r.lines)
    {
      hide Chunk, StrChr;
      ghost var goal := RunPatch(Hunks(idx, rangeStart, None, false, []), patch);
      var rest, patchCmd: Option<string>, inHunk, chunk: seq<string> := patch, None, false, [];
      while rest != ""
        invariant RunPatch(Hunks(idx, rangeStart, patchCmd, inHunk, chunk), rest) == goal
        decreases |rest|
      {
        var crNext := StrChr(rest, '\n');
        if crNext.None? { return Outside; }
        var line, at := rest[..crNext.value + 1], rest;
        rest := rest[crNext.value + 1..];
        var hunkOk := |line| == 2 && line[0] == '.';
        if !hunkOk {
          if inHunk {
            chunk := chunk + [line];
          } else if SUBST <= line {
            if rangeStart != 0 {
              if rangeStart >= |idx| { return Outside; }
              idx := idx[rangeStart := ".\n"];
            }
            continue;
          } else if line[0] == 'w' {
            continue;
          } else {
            patchCmd, inHunk := Some(at), true;
            hunkOk := |line| > 2 && line[|line| - 2] == 'd';
          }
        }
        if hunkOk {
          if patchCmd.None? { return Outside; }
          end := PatchChunk(patchCmd.value, chunk);
          if !end.Applied? { return; }
          chunk, inHunk := [], false;
        }
      }
      return Applied;
    }
  }

  /** The loop that splits a file. */
  method ReadLines(buf: string) returns (lines: seq<string>)
    ensures lines == [""] + SplitLines(buf)
  {
    hide StrChr;
    lines := [""];
    var p := buf;
    while p != ""
      invariant [""] + SplitLines(buf) == lines + SplitLines(p)
      decreases |p|
    {
      var crNext := StrChr(p, '\n');
      if crNext.None? {
        lines := lines + [p];
        break;
      }
      lines := lines + [p[..crNext.value + 1]];
      p := p[crNext.value + 1..];
    }
  }

  /** patch_file: the patched file, if it comes to that. */
  method PatchInPlace(base: string, patch: string) returns (end: Ending, result: string)
    ensures var r := PatchFile(base, patch);
      end == EndOf(r) && (r.Patched? ==> result == Concat(r.lines))
  {
    hide Concat, SplitLines, RunPatch;
    var lines := ReadLines(base);
    var p := new Patcher(lines);
    end := p.RunScript(patch);
    result := "";
    if end.Applied? { result := WriteLines(p.idx); }
  }

  method WriteLines(lines: seq<string>) returns (res: string)
    ensures res == Concat(lines)
  {
    var i := 0;
    res := "";
    assert lines[0..] == lines && "" + Concat(lines) == Concat(lines);
    while i < |lines|
      invariant 0 <= i <= |lines| && res + Concat(lines[i..]) == Concat(lines)
    {
      assert lines[i..][1..] == lines[i + 1..];
      assert res + (lines[i] + Concat(lines[i + 1..])) == res + lines[i] + Concat(lines[i + 1..]);
      res := res + lines[i];
      i := i + 1;
    }
    assert lines[i..] == [] && res + "" == res;
  }
}
