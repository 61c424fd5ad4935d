/** The strict splitter of src/astrop.h for the separator it is used with, CRLF: every separator
    separates, so empty tokens count. */
module Splitter {
  import opened Text

  /** The first token of a text, and what follows its separator if there is one. */
  function LineOf(s: string): string {
    var k := FindCrlf(s);
    if k.None? then s else s[..k.value]
  }

  function AfterLine(s: string): (r: Option<string>)
    ensures r.Some? ==> |r.value| + |LineOf(s)| + 2 == |s|
  {
    var k := FindCrlf(s);
    if k.None? then None else Some(s[k.value + 2..])
  }

  /** The tokens of a text that is known to hold one, even if it is empty. */
  function SplitOn(s: string): (ts: seq<string>)
    ensures |ts| > 0
    decreases |s|
  {
    var rest := AfterLine(s);
    if rest.None? then [LineOf(s)] else [LineOf(s)] + SplitOn(rest.value)
  }

  function Split(s: string): seq<string> {
    if s == "" then [] else SplitOn(s)
  }

  function Join(ts: seq<string>): string {
    if |ts| == 0 then "" else if |ts| == 1 then ts[0] else ts[0] + CRLF + Join(ts[1..])
  }

  /** No text is lost or invented: the tokens joined by the separator are the input, and no
      token still contains a separator. */
  lemma {:induction false} JoinOfSplit(s: string)
    ensures Join(SplitOn(s)) == s
    ensures forall t :: t in SplitOn(s) ==> FindCrlf(t).None?
    decreases |s|
  {
    hide FindCrlf, LineOf, AfterLine;
    LineAndRest(s);
    var rest := AfterLine(s);
    if rest.Some? {
      JoinOfSplit(rest.value);
      assert SplitOn(s)[1..] == SplitOn(rest.value);
    }
  }

  lemma LineAndRest(s: string)
    ensures FindCrlf(LineOf(s)).None?
    ensures s == match AfterLine(s) case None => LineOf(s) case Some(rest) => LineOf(s) + CRLF + rest
  {
    hide FindCrlf;
    var k := FindCrlf(s);
    if k.Some? {
      FindCrlfExtend(s[..k.value], s[k.value..]);
      assert s == s[..k.value] + s[k.value..];
      assert s[k.value..] == CRLF + s[k.value + 2..];
    }
  }

  lemma JoinOfSplitAll(s: string)
    ensures Join(Split(s)) == s
  {
    JoinOfSplit(s);
  }

  lemma LineOfFirst(line: string, rest: string)
    requires FindCrlf(line).None?
    ensures LineOf(line + CRLF + rest) == line
    ensures AfterLine(line + CRLF + rest) == Some(rest)
  {
    hide FindCrlf;
    FindLineEnd(line, rest);
  }

  lemma LineOfLast(line: string)
    requires FindCrlf(line).None?
    ensures LineOf(line) == line && AfterLine(line).None?
  {
  }

  /** The other direction, for the CRLF separator used on heads: what was joined comes apart
      again. A single empty token is the one list the splitter cannot tell from no token. */
  lemma {:induction false} SplitOfJoin(ts: seq<string>)
    requires |ts| > 0
    requires forall t :: t in ts ==> FindCrlf(t).None?
    ensures SplitOn(Join(ts)) == ts
  {
    hide FindCrlf, LineOf, AfterLine;
    if |ts| > 1 {
      assert ts[0] in ts;
      assert ts == [ts[0]] + ts[1..];
      LineOfFirst(ts[0], Join(ts[1..]));
      SplitOfJoin(ts[1..]);
    } else {
      assert ts[0] in ts && Join(ts) == ts[0];
      assert LineOf(ts[0]) == ts[0] && AfterLine(ts[0]).None? by { LineOfLast(ts[0]); }
    }
  }

  /** What is left to split is one token, and then the tokens behind its separator. */
  lemma OneToken(s: string)
    ensures SplitOn(s) == [LineOf(s)] + match AfterLine(s) case None => [] case Some(rest) => SplitOn(rest)
  {
    hide LineOf, AfterLine;
  }

  class StrictSplitter {
    var input: string
    var sliceLen: nat
    var first: bool

    ghost predicate Valid()
      reads this
    {
      && sliceLen <= |input|
      && (first ==> sliceLen == 0)
      && (!first && sliceLen < |input| ==> CrlfAt(input, sliceLen))
    }

    /** The text whose tokens are still to come; None when there is none left. */
    ghost function Rest(): Option<string>
      requires Valid()
      reads this
    {
      if |input| == sliceLen then None
      else if first then Some(input)
      else Some(input[sliceLen + 2..])
    }

    /** The view is the first token of `input`, and the rest is what follows its separator. */
    ghost predicate AtToken()
      requires Valid()
      reads this
    {
      View() == LineOf(input) && Rest() == AfterLine(input)
    }

    constructor (line: string)
      ensures Valid()
      ensures Rest() == if line == "" then None else Some(line)
    {
      input, sliceLen, first := line, 0, true;
    }

    /** Moves to the next token; `input` starts at that token afterwards. */
    method Next() returns (more: bool)
      requires Valid()
      modifies this
      ensures Valid()
      ensures more == old(Rest()).Some?
      ensures !more ==> Rest().None?
      ensures more ==> input == old(Rest()).value && AtToken()
    {
      if |input| == sliceLen { return false; }
      input := input[sliceLen..];
      if !first {
        input := input[2..];
      } else {
        first := false;
      }
      var k := FindCrlf(input);
      sliceLen := if k.None? then |input| else k.value;
      return true;
    }

    function View(): string
      requires Valid()
      reads this
    {
      input[..sliceLen]
    }
  }

  /** to_deque: drains a splitter. */
  method ToDeque(line: string) returns (ts: seq<string>)
    ensures ts == Split(line)
    ensures Join(ts) == line
  {
    hide SplitOn, LineOf, AfterLine, FindCrlf, CrlfAt, Join;
    var split := new StrictSplitter(line);
    ts := [];
    var more := split.Next();
    while more
      invariant split.Valid()
      invariant more ==> split.AtToken()
      invariant Split(line) == if more then ts + SplitOn(split.input) else ts
      decreases more, |split.input|
    {
      OneToken(split.input);
      ghost var sofar, here := ts, SplitOn(split.input);
      ts := ts + [split.View()];
      more := split.Next();
      assert here == [ts[|sofar|]] + if more then SplitOn(split.input) else [];
      assert sofar + here == ts + if more then SplitOn(split.input) else [];
    }
    assert Join(ts) == line by { JoinOfSplitAll(line); }
  }
}
