/** The parts of Go's package strings that deal with lines. */
module Strings {
  import opened Basics

  /** The position of the first newline, or |s|. */
  function LineEnd(s: string): (i: nat)
    ensures i <= |s|
    ensures i < |s| ==> s[i] == '\n'
    ensures '\n' !in s[..i]
  {
    if s == [] || s[0] == '\n' then 0
    else
      var i := 1 + LineEnd(s[1..]);
      assert s[..i] == [s[0]] + s[1..][..i - 1];
      i
  }

  /** strings.Split(s, "\n") */
  function Split(s: string): (lines: seq<string>)
    ensures lines != []
  {
    var i := LineEnd(s);
    if i == |s| then [s] else [s[..i]] + Split(s[i + 1..])
  }

  /** strings.Join(lines, "\n") */
  function Join(lines: seq<string>): string {
    if lines == [] then ""
    else if |lines| == 1 then lines[0]
    else lines[0] + "\n" + Join(lines[1..])
  }

  predicate NewlineFree(lines: seq<string>) {
    forall i :: 0 <= i < |lines| ==> '\n' !in lines[i]
  }

  lemma LineEndOfLine(line: string, rest: string)
    requires '\n' !in line
    ensures LineEnd(line + "\n" + rest) == |line|
  {
    var s := line + "\n" + rest;
    assert s[|line|] == '\n' && s[..|line|] == line;
  }

  lemma LineEndNone(line: string)
    requires '\n' !in line
    ensures LineEnd(line) == |line|
  {
  }

  lemma LineAndRest(line: string, rest: string)
    ensures (line + "\n" + rest)[..|line|] == line && (line + "\n" + rest)[|line| + 1..] == rest
  {
    TakeDrop(line + "\n", rest);
    Assoc(line, "\n", rest);
    TakeDrop(line, "\n" + rest);
  }

  lemma SplitOneLine(line: string, rest: string)
    requires '\n' !in line
    ensures Split(line + "\n" + rest) == [line] + Split(rest)
  {
    LineEndOfLine(line, rest);
    LineAndRest(line, rest);
  }

  /** Splitting undoes joining. */
  lemma {:induction false} SplitJoin(lines: seq<string>)
    requires lines != [] && NewlineFree(lines)
    ensures Split(Join(lines)) == lines
  {
    if |lines| == 1 {
      LineEndNone(lines[0]);
    } else {
      SplitJoin(lines[1..]);
      SplitOneLine(lines[0], Join(lines[1..]));
      SplitAt(lines, 0);
    }
  }

  /** Joining undoes splitting, and the pieces hold no newline. */
  lemma {:induction false} JoinSplit(s: string)
    ensures Join(Split(s)) == s && NewlineFree(Split(s))
  {
    var i := LineEnd(s);
    if i < |s| {
      JoinSplit(s[i + 1..]);
      assert s == s[..i] + "\n" + s[i + 1..];
      assert Split(s)[1..] == Split(s[i + 1..]);
    } else {
      assert s[..i] == s;
    }
  }
}
