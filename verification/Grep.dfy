/** The two searches of worker/grep.go: the windows of searchFile and the fold of parseRipgrepJSON.
    Regular expressions and JSON decoding are parameters. */
module Grep {
  import opened Basics
  import opened Strings

  datatype GrepMatch = GrepMatch(path: string, line: int, content: string, before: seq<string>, after: seq<string>)

  // ---- searchFile ----

  function Min(a: int, b: int): int { if a < b then a else b }

  function Max(a: int, b: int): int { if a > b then a else b }

  /** The match at index `i` with the lines within distance `k` around it. */
  function MatchAt(path: string, lines: seq<string>, i: nat, k: int): GrepMatch
    requires i < |lines|
  {
    GrepMatch(path, ToInt32(i + 1), lines[i],
              if k > 0 then lines[Max(0, i - k)..i] else [],
              if k > 0 then lines[i + 1..Min(|lines|, i + k + 1)] else [])
  }

  /** A null byte within the first 8192. */
  function IsBinary(content: string): bool {
    '\0' in content[..Min(|content|, 8192)]
  }

  lemma BinaryIff(content: string)
    ensures IsBinary(content) <==> HasNull(content, 8192)
  {
    var start := content[..Min(|content|, 8192)];
    assert forall i :: 0 <= i < |start| ==> start[i] == content[i];
  }

  /** The two context loops. */
  method ContextAround(lines: seq<string>, i: nat, contextLines: int) returns (before: seq<string>, after: seq<string>)
    requires i < |lines|
    ensures before == if contextLines > 0 then lines[Max(0, i - contextLines)..i] else []
    ensures after == if contextLines > 0 then lines[i + 1..Min(|lines|, i + contextLines + 1)] else []
  {
    before, after := [], [];
    if contextLines > 0 {
      var start := Max(0, i - contextLines);
      for j := start to i
        invariant before == lines[start..j]
      {
        before := before + [lines[j]];
      }
      var end := Min(|lines|, i + contextLines + 1);
      for j := i + 1 to end
        invariant after == lines[i + 1..j]
      {
        after := after + [lines[j]];
      }
    }
  }

  /** The indices of the matching lines among the first `n`. */
  function Hits(lines: seq<string>, matches: string -> bool, n: nat): seq<nat>
    requires n <= |lines|
  {
    if n == 0 then []
    else Hits(lines, matches, n - 1) + if matches(lines[n - 1]) then [n - 1] else []
  }

  /** They are in ascending order, and none is missing. */
  lemma {:induction false} HitsAreTheMatches(lines: seq<string>, matches: string -> bool, n: nat)
    requires n <= |lines|
    ensures var hits := Hits(lines, matches, n);
      && (forall a, b :: 0 <= a < b < |hits| ==> hits[a] < hits[b])
      && (forall i :: 0 <= i < |lines| ==> (i in hits <==> i < n && matches(lines[i])))
      && forall a :: 0 <= a < |hits| ==> hits[a] < n
  {
    if n > 0 {
      HitsAreTheMatches(lines, matches, n - 1);
    }
  }

  /** One result per hit, in the same order. */
  predicate AreMatches(result: seq<GrepMatch>, hits: seq<nat>, path: string, lines: seq<string>, k: int) {
    && |result| == |hits|
    && forall a :: 0 <= a < |hits| ==> hits[a] < |lines| && result[a] == MatchAt(path, lines, hits[a], k)
  }

  lemma MatchesStep(result: seq<GrepMatch>, hits: seq<nat>, path: string, lines: seq<string>, k: int, i: nat)
    requires AreMatches(result, hits, path, lines, k) && i < |lines|
    ensures AreMatches(result + [MatchAt(path, lines, i, k)], hits + [i], path, lines, k)
  {
  }

  /** `content` is `None` for a file that cannot be read, which is an error. A binary file has no results. */
  method SearchFile(content: Option<string>, relPath: string, matches: string -> bool, contextLines: int)
    returns (ok: bool, result: seq<GrepMatch>)
    ensures ok <==> content.Some?
    ensures content.None? || HasNull(content.value, 8192) ==> result == []
    ensures content.Some? && !HasNull(content.value, 8192) ==>
      var lines := Split(content.value);
      AreMatches(result, Hits(lines, matches, |lines|), relPath, lines, contextLines)
  {
    ok, result := content.Some?, [];
    if content.Some? {
      BinaryIff(content.value);
    }
    if content.None? || IsBinary(content.value) {
      return;
    }
    var lines := Split(content.value);
    for i := 0 to |lines|
      invariant AreMatches(result, Hits(lines, matches, i), relPath, lines, contextLines)
    {
      if matches(lines[i]) {
        var before, after := ContextAround(lines, i, contextLines);
        MatchesStep(result, Hits(lines, matches, i), relPath, lines, contextLines, i);
        result := result + [GrepMatch(relPath, ToInt32(i + 1), lines[i], before, after)];
      }
    }
  }

  /** With at least as many context lines as the file has lines, any match carries the whole file. */
  lemma WideContextRebuildsFile(path: string, content: string, i: nat, k: int)
    requires i < |Split(content)| && k >= |Split(content)|
    ensures var m := MatchAt(path, Split(content), i, k);
      && m.before + [m.content] + m.after == Split(content)
      && Join(m.before + [m.content] + m.after) == content
  {
    var lines := Split(content);
    JoinSplit(content);
    SplitAt(lines, i);
    var m := MatchAt(path, lines, i, k);
    assert m.before == lines[..i] && m.after == lines[i + 1..];
  }

  /** Context is symmetric: a match at `j` shows line `i` before it exactly when a match at `i` shows
      line `j` after it, and the window is the lines at distance at most k. */
  lemma WindowsAreMutual(path: string, lines: seq<string>, i: nat, j: nat, k: int)
    requires i < j < |lines| && k > 0
    ensures var mi, mj := MatchAt(path, lines, i, k), MatchAt(path, lines, j, k);
      && (j - i <= |mi.after| <==> j - i <= |mj.before|)
      && (j - i <= |mi.after| <==> j - i <= k)
      && (j - i <= k ==> mi.after[j - i - 1] == lines[j] && mj.before[|mj.before| - (j - i)] == lines[i])
  {
  }

  // ---- parseRipgrepJSON ----

  /** A decoded line of ripgrep's output; `OtherMsg` is any other type or a line that does not decode. */
  datatype Msg =
    | BeginMsg
    | MatchMsg(path: string, line: int, text: string)
    | ContextMsg(path: string, line: int, text: string)
    | OtherMsg

  /** strings.TrimRight(s, "\n\r") */
  function TrimLineEnd(s: string): string {
    if s != "" && (s[|s| - 1] == '\n' || s[|s| - 1] == '\r') then TrimLineEnd(s[..|s| - 1]) else s
  }

  predicate IsBreak(c: char) {
    c == '\n' || c == '\r'
  }

  /** What is trimmed are line breaks only, and all at the end. */
  lemma {:induction false} TrimLineEndTrims(s: string)
    ensures var t := TrimLineEnd(s);
      && t <= s && (t == "" || !IsBreak(t[|t| - 1]))
      && forall i :: |t| <= i < |s| ==> IsBreak(s[i])
  {
    if s != "" && IsBreak(s[|s| - 1]) {
      TrimLineEndTrims(s[..|s| - 1]);
    }
  }

  /** `current`: whether `currentMatch` is set; it is then the last match. */
  datatype Parsed = Parsed(matches: seq<GrepMatch>, current: bool)

  predicate ParsedOk(p: Parsed) {
    p.current ==> p.matches != []
  }

  function WithContext(m: GrepMatch, line: int, text: string): GrepMatch {
    if line < m.line then m.(before := m.before + [text])
    else if line > m.line then m.(after := m.after + [text])
    else m
  }

  /** The effect of one message. */
  function Take(p: Parsed, msg: Msg, rel: string -> string): (r: Parsed)
    requires ParsedOk(p)
    ensures ParsedOk(r)
  {
    match msg
    case BeginMsg => p.(current := false)
    case MatchMsg(path, line, text) =>
      Parsed(p.matches + [GrepMatch(rel(path), ToInt32(line), TrimLineEnd(text), [], [])], true)
    case ContextMsg(_, line, text) =>
      if !p.current then p
      else
        var last := |p.matches| - 1;
        p.(matches := p.matches[last := WithContext(p.matches[last], line, TrimLineEnd(text))])
    case OtherMsg => p
  }

  function Parse(msgs: seq<Msg>, rel: string -> string): (r: Parsed)
    ensures ParsedOk(r)
  {
    if msgs == [] then Parsed([], false)
    else Take(Parse(msgs[..|msgs| - 1], rel), msgs[|msgs| - 1], rel)
  }

  /** A *remotehandsv1.GrepMatch, whose context slices grow through the `currentMatch` pointer. */
  class MatchObject {
    const path: string
    const line: int
    const content: string
    var before: seq<string>
    var after: seq<string>

    constructor (path: string, line: int, content: string)
      ensures Value() == GrepMatch(path, line, content, [], [])
    {
      this.path, this.line, this.content := path, line, content;
      before, after := [], [];
    }

    function Value(): GrepMatch
      reads this
    {
      GrepMatch(path, line, content, before, after)
    }

    /** The line number decides the side; the match's own line goes nowhere. */
    method AddContext(line: int, text: string)
      modifies this
      ensures Value() == WithContext(old(Value()), line, text)
    {
      if line < this.line {
        before := before + [text];
      } else if line > this.line {
        after := after + [text];
      }
    }
  }

  /** A context line for the current match. */
  method Attach(matches: seq<MatchObject>, current: MatchObject, line: int, text: string,
                ghost p: Parsed, ghost rel: string -> string)
    requires ParsedOk(p) && Distinct(matches) && Represents(matches, current, p)
    modifies current
    ensures Represents(matches, current, Take(p, ContextMsg("", line, text), rel))
  {
    current.AddContext(line, TrimLineEnd(text));
  }

  /** A scanner that stops early is reported together with the results so far. */
  method ParseRipgrepJSON(msgs: seq<Msg>, scanFails: bool, rel: string -> string)
    returns (matches: seq<MatchObject>, failed: bool)
    ensures failed == scanFails
    ensures Distinct(matches) && fresh(matches)
    ensures |matches| == |Parse(msgs, rel).matches|
    ensures forall i :: 0 <= i < |matches| ==> matches[i].Value() == Parse(msgs, rel).matches[i]
  {
    matches := [];
    var currentMatch: MatchObject? := null;
    ghost var p := Parsed([], false);
    for i := 0 to |msgs|
      invariant Distinct(matches) && fresh(matches)
      invariant p == Parse(msgs[..i], rel)
      invariant Represents(matches, currentMatch, p)
    {
      assert msgs[..i + 1][..i] == msgs[..i] && Parse(msgs[..i + 1], rel) == Take(p, msgs[i], rel);
      match msgs[i] {
        case MatchMsg(path, line, text) =>
          currentMatch := new MatchObject(rel(path), ToInt32(line), TrimLineEnd(text));
          matches := matches + [currentMatch];
        case ContextMsg(_, line, text) =>
          if currentMatch != null {
            Attach(matches, currentMatch, line, text, p, rel);
          }
        case BeginMsg =>
          currentMatch := null;
        case OtherMsg =>
      }
      p := Take(p, msgs[i], rel);
    }
    assert msgs[..|msgs|] == msgs;
    failed := scanFails;
  }

  ghost predicate Represents(matches: seq<MatchObject>, currentMatch: MatchObject?, p: Parsed)
    reads matches
  {
    && |matches| == |p.matches|
    && (forall k :: 0 <= k < |matches| ==> matches[k].Value() == p.matches[k])
    && (p.current <==> currentMatch != null)
    && (currentMatch != null ==> matches != [] && currentMatch == matches[|matches| - 1])
  }

  // ---- what the fold computes ----

  /** The indices of the match messages. */
  function Positions(msgs: seq<Msg>): (r: seq<nat>)
    ensures forall m :: 0 <= m < |r| ==> r[m] < |msgs| && msgs[r[m]].MatchMsg?
    ensures forall a, b :: 0 <= a < b < |r| ==> r[a] < r[b]
  {
    if msgs == [] then []
    else
      var front := Positions(msgs[..|msgs| - 1]);
      if msgs[|msgs| - 1].MatchMsg? then front + [|msgs| - 1] else front
  }

  /** No match or new file from index `i` on. */
  predicate Open(msgs: seq<Msg>, i: nat) {
    forall j :: i <= j < |msgs| ==> !msgs[j].BeginMsg? && !msgs[j].MatchMsg?
  }

  /** The context lines from index `i` up to the next match or new file. */
  function ContextRun(msgs: seq<Msg>, i: nat): seq<string>
    decreases |msgs| - i
  {
    if i >= |msgs| || msgs[i].BeginMsg? || msgs[i].MatchMsg? then []
    else if msgs[i].ContextMsg? then [TrimLineEnd(msgs[i].text)] + ContextRun(msgs, i + 1)
    else ContextRun(msgs, i + 1)
  }

  predicate HasLine(msg: Msg) {
    msg.MatchMsg? || msg.ContextMsg?
  }

  predicate SameFile(msgs: seq<Msg>, i: nat, j: nat)
    requires i < j < |msgs|
  {
    forall n :: i < n < j ==> !msgs[n].BeginMsg?
  }

  /** Within one file (no "begin" in between) line numbers strictly increase, and they fit in 32 bits. */
  predicate Ordered(msgs: seq<Msg>) {
    && (forall i :: 0 <= i < |msgs| ==> HasLine(msgs[i]) ==> 0 < msgs[i].line < 0x8000_0000)
    && (forall i, j :: 0 <= i < j < |msgs| ==>
          HasLine(msgs[i]) && HasLine(msgs[j]) && SameFile(msgs, i, j) ==> msgs[i].line < msgs[j].line)
  }

  /** Every match message yields one result, in order, with its own path, line and text. */
  predicate HeadersOk(msgs: seq<Msg>, rel: string -> string) {
    var p, pos := Parse(msgs, rel), Positions(msgs);
    && |p.matches| == |pos|
    && forall m :: 0 <= m < |pos| ==>
         && p.matches[m].path == rel(msgs[pos[m]].path)
         && p.matches[m].line == ToInt32(msgs[pos[m]].line)
         && p.matches[m].content == TrimLineEnd(msgs[pos[m]].text)
  }

  lemma {:induction false} OneResultPerMatch(msgs: seq<Msg>, rel: string -> string)
    ensures HeadersOk(msgs, rel)
  {
    if msgs != [] {
      OneResultPerMatch(msgs[..|msgs| - 1], rel);
    }
  }

  lemma OpenSnoc(front: seq<Msg>, msg: Msg, i: nat)
    requires i <= |front|
    ensures Open(front + [msg], i) <==> Open(front, i) && !msg.BeginMsg? && !msg.MatchMsg?
  {
    var msgs := front + [msg];
    assert msgs[|front|] == msg;
    assert forall j :: 0 <= j < |front| ==> msgs[j] == front[j];
  }

  /** `currentMatch` is the last match, as long as no new file has begun. */
  predicate CurrentOk(p: Parsed, msgs: seq<Msg>, pos: seq<nat>) {
    && |p.matches| == |pos|
    && (p.current ==> pos != [] && Open(msgs, pos[|pos| - 1] + 1))
    && (forall m :: 0 <= m < |pos| && (!p.current || m < |pos| - 1) ==> !Open(msgs, pos[m] + 1))
  }

  lemma CurrentStep(p: Parsed, front: seq<Msg>, pos: seq<nat>, msg: Msg, rel: string -> string)
    requires ParsedOk(p) && CurrentOk(p, front, pos) && forall m :: 0 <= m < |pos| ==> pos[m] < |front|
    ensures CurrentOk(Take(p, msg, rel), front + [msg], if msg.MatchMsg? then pos + [|front|] else pos)
  {
    forall m | 0 <= m < |pos|
      ensures Open(front + [msg], pos[m] + 1) <==> Open(front, pos[m] + 1) && !msg.BeginMsg? && !msg.MatchMsg?
    {
      OpenSnoc(front, msg, pos[m] + 1);
    }
  }

  lemma {:induction false} CurrentIsOpen(msgs: seq<Msg>, rel: string -> string)
    ensures CurrentOk(Parse(msgs, rel), msgs, Positions(msgs))
  {
    if msgs != [] {
      var front, msg := msgs[..|msgs| - 1], msgs[|msgs| - 1];
      assert msgs == front + [msg];
      CurrentIsOpen(front, rel);
      CurrentStep(Parse(front, rel), front, Positions(front), msg, rel);
    }
  }

  /** Of the context lines from index `i` up to the next match or new file: those with a smaller line number than
      `line`, or those with a larger one. */
  function RunBeside(msgs: seq<Msg>, i: nat, line: int, smaller: bool): seq<string>
    decreases |msgs| - i
  {
    if i >= |msgs| || msgs[i].BeginMsg? || msgs[i].MatchMsg? then []
    else BesideOf(msgs[i], line, smaller) + RunBeside(msgs, i + 1, line, smaller)
  }

  function BesideOf(msg: Msg, line: int, smaller: bool): seq<string> {
    if msg.ContextMsg? && (if smaller then msg.line < line else msg.line > line) then [TrimLineEnd(msg.text)] else []
  }

  lemma {:induction false} RunBesideSnoc(msgs: seq<Msg>, msg: Msg, i: nat, line: int, smaller: bool)
    requires i <= |msgs|
    ensures RunBeside(msgs + [msg], i, line, smaller) ==
      RunBeside(msgs, i, line, smaller) + if Open(msgs, i) then BesideOf(msg, line, smaller) else []
    decreases |msgs| - i
  {
    var all, tail := msgs + [msg], if Open(msgs, i) then BesideOf(msg, line, smaller) else [];
    if i < |msgs| {
      assert all[i] == msgs[i];
      if !msgs[i].BeginMsg? && !msgs[i].MatchMsg? {
        RunBesideSnoc(msgs, msg, i + 1, line, smaller);
        assert Open(msgs, i) <==> Open(msgs, i + 1);
        Assoc(BesideOf(msgs[i], line, smaller), RunBeside(msgs, i + 1, line, smaller), tail);
      }
    } else {
      assert all[i] == msg;
      assert RunBeside(all, i + 1, line, smaller) == [];
    }
  }

  /** The result for the match at `i` holds the context lines of its run, split by their line numbers. */
  predicate IsSplit(m: GrepMatch, msgs: seq<Msg>, i: nat) {
    && m.before == RunBeside(msgs, i + 1, m.line, true)
    && m.after == RunBeside(msgs, i + 1, m.line, false)
  }

  predicate SplitOk(p: Parsed, msgs: seq<Msg>, pos: seq<nat>) {
    |p.matches| == |pos| && forall m :: 0 <= m < |pos| ==> IsSplit(p.matches[m], msgs, pos[m])
  }

  /** A result is as before unless it is the current one and the message is a context line. */
  lemma SplitKept(m: GrepMatch, front: seq<Msg>, i: nat, msg: Msg)
    requires i < |front| && IsSplit(m, front, i)
    ensures !Open(front, i + 1) || !msg.ContextMsg? ==> IsSplit(m, front + [msg], i)
    ensures Open(front, i + 1) && msg.ContextMsg? ==>
      IsSplit(WithContext(m, msg.line, TrimLineEnd(msg.text)), front + [msg], i)
  {
    RunBesideSnoc(front, msg, i + 1, m.line, true);
    RunBesideSnoc(front, msg, i + 1, m.line, false);
  }

  lemma SplitInStep(p: Parsed, front: seq<Msg>, pos: seq<nat>, msg: Msg, rel: string -> string, m: nat)
    requires ParsedOk(p) && CurrentOk(p, front, pos) && m < |pos| && pos[m] < |front|
    requires IsSplit(p.matches[m], front, pos[m])
    ensures m < |Take(p, msg, rel).matches| && IsSplit(Take(p, msg, rel).matches[m], front + [msg], pos[m])
  {
    SplitKept(p.matches[m], front, pos[m], msg);
    assert Open(front, pos[m] + 1) <==> p.current && m == |pos| - 1;
  }

  lemma NewIsSplit(m: GrepMatch, msgs: seq<Msg>)
    requires msgs != [] && m.before == [] && m.after == []
    ensures IsSplit(m, msgs, |msgs| - 1)
  {
  }

  lemma SplitStep(p: Parsed, front: seq<Msg>, pos: seq<nat>, msg: Msg, rel: string -> string)
    requires ParsedOk(p) && CurrentOk(p, front, pos) && SplitOk(p, front, pos)
    requires forall m :: 0 <= m < |pos| ==> pos[m] < |front|
    ensures SplitOk(Take(p, msg, rel), front + [msg], if msg.MatchMsg? then pos + [|front|] else pos)
  {
    var matches := Take(p, msg, rel).matches;
    forall m | 0 <= m < |pos| ensures IsSplit(matches[m], front + [msg], pos[m]) {
      SplitInStep(p, front, pos, msg, rel, m);
    }
    if msg.MatchMsg? {
      NewIsSplit(matches[|pos|], front + [msg]);
    }
  }

  /** On any stream: a context line up to the next match or file is recorded with the match before it, ahead of it
      if its line number is smaller and behind it if it is larger. */
  lemma {:induction false} ContextIsSplit(msgs: seq<Msg>, rel: string -> string)
    ensures SplitOk(Parse(msgs, rel), msgs, Positions(msgs))
  {
    if msgs != [] {
      var front, msg := msgs[..|msgs| - 1], msgs[|msgs| - 1];
      assert msgs == front + [msg];
      CurrentIsOpen(front, rel);
      ContextIsSplit(front, rel);
      SplitStep(Parse(front, rel), front, Positions(front), msg, rel);
    }
  }

  predicate RunsOk(p: Parsed, msgs: seq<Msg>, pos: seq<nat>) {
    && |p.matches| == |pos|
    && forall m :: 0 <= m < |pos| ==>
         p.matches[m].before == [] && p.matches[m].after == ContextRun(msgs, pos[m] + 1)
  }

  /** Where line numbers increase all of a run is behind. */
  lemma {:induction false} OrderedRun(msgs: seq<Msg>, k: nat, i: nat)
    requires Ordered(msgs) && k < i <= |msgs| && msgs[k].MatchMsg? && Open(msgs[..i], k + 1)
    ensures RunBeside(msgs, i, msgs[k].line, true) == []
    ensures RunBeside(msgs, i, msgs[k].line, false) == ContextRun(msgs, i)
    decreases |msgs| - i
  {
    if i < |msgs| && !msgs[i].BeginMsg? && !msgs[i].MatchMsg? {
      assert forall n :: 0 <= n < i ==> msgs[..i][n] == msgs[n];
      assert SameFile(msgs, k, i);
      OpenSnoc(msgs[..i], msgs[i], k + 1);
      assert msgs[..i + 1] == msgs[..i] + [msgs[i]];
      OrderedRun(msgs, k, i + 1);
    }
  }

  /** On ripgrep's ordered streams each context line that follows a match in its file is recorded once,
      after the nearest preceding match; ContextBefore stays empty, because a context line that arrives
      while a match is current has a larger line number. */
  lemma ContextGoesToPrecedingMatch(msgs: seq<Msg>, rel: string -> string)
    requires Ordered(msgs)
    ensures RunsOk(Parse(msgs, rel), msgs, Positions(msgs))
  {
    ContextIsSplit(msgs, rel);
    OneResultPerMatch(msgs, rel);
    SplitsAreRuns(Parse(msgs, rel), msgs, Positions(msgs));
  }

  lemma SplitsAreRuns(p: Parsed, msgs: seq<Msg>, pos: seq<nat>)
    requires Ordered(msgs) && SplitOk(p, msgs, pos)
    requires forall m :: 0 <= m < |pos| ==>
      pos[m] < |msgs| && msgs[pos[m]].MatchMsg? && p.matches[m].line == ToInt32(msgs[pos[m]].line)
    ensures RunsOk(p, msgs, pos)
  {
    forall m | 0 <= m < |pos|
      ensures p.matches[m].before == [] && p.matches[m].after == ContextRun(msgs, pos[m] + 1)
    {
      SplitIsRun(p.matches[m], msgs, pos[m]);
    }
  }

  lemma SplitIsRun(m: GrepMatch, msgs: seq<Msg>, k: nat)
    requires Ordered(msgs) && k < |msgs| && msgs[k].MatchMsg?
    requires IsSplit(m, msgs, k) && m.line == ToInt32(msgs[k].line)
    ensures m.before == [] && m.after == ContextRun(msgs, k + 1)
  {
    ToInt32Wraps(msgs[k].line);
    OrderedRun(msgs, k, k + 1);
  }

  // ---- each context line once ----

  /** The indices of the messages that make up the context run from `i`. */
  function RunIndices(msgs: seq<Msg>, i: nat): seq<nat>
    decreases |msgs| - i
  {
    if i >= |msgs| || msgs[i].BeginMsg? || msgs[i].MatchMsg? then []
    else if msgs[i].ContextMsg? then [i] + RunIndices(msgs, i + 1)
    else RunIndices(msgs, i + 1)
  }

  lemma {:induction false} RunIndicesAre(msgs: seq<Msg>, i: nat)
    ensures var r := RunIndices(msgs, i);
      && |r| == |ContextRun(msgs, i)|
      && (forall a :: 0 <= a < |r| ==>
            i <= r[a] < |msgs| && msgs[r[a]].ContextMsg? && ContextRun(msgs, i)[a] == TrimLineEnd(msgs[r[a]].text))
      && (forall a, b :: 0 <= a < b < |r| ==> r[a] < r[b])
      && (forall j: nat :: j in r <==> i <= j < |msgs| && msgs[j].ContextMsg? && Open(msgs[..j], i))
    decreases |msgs| - i
  {
    if i < |msgs| && !msgs[i].BeginMsg? && !msgs[i].MatchMsg? {
      RunIndicesAre(msgs, i + 1);
      forall j | i < j < |msgs| ensures Open(msgs[..j], i) <==> Open(msgs[..j], i + 1) {
        assert msgs[..j][i] == msgs[i];
      }
    } else if i < |msgs| {
      forall j | i < j < |msgs| ensures !Open(msgs[..j], i) {
        assert msgs[..j][i] == msgs[i];
      }
    }
  }

  lemma InRunIff(msgs: seq<Msg>, i: nat, j: nat)
    requires i < |msgs| && j < |msgs| && msgs[j].ContextMsg?
    ensures j in RunIndices(msgs, i + 1) <==> i < j && Open(msgs[..j], i + 1)
  {
    RunIndicesAre(msgs, i + 1);
  }

  lemma RunsAreDisjoint(msgs: seq<Msg>, a: nat, b: nat, j: nat)
    requires a < b < |msgs| && msgs[b].MatchMsg? && j < |msgs| && msgs[j].ContextMsg?
    ensures !(j in RunIndices(msgs, a + 1) && j in RunIndices(msgs, b + 1))
  {
    InRunIff(msgs, a, j);
    InRunIff(msgs, b, j);
    if b < j {
      assert msgs[..j][b].MatchMsg?;
    }
  }

  predicate HasMatchBefore(msgs: seq<Msg>, j: nat)
    requires j < |msgs|
  {
    exists i :: 0 <= i < j && msgs[i].MatchMsg? && SameFile(msgs, i, j)
  }

  /** The message at `j` is in the run of the `m`-th match. */
  predicate InRunOf(msgs: seq<Msg>, m: nat, j: nat) {
    m < |Positions(msgs)| && j in RunIndices(msgs, Positions(msgs)[m] + 1)
  }

  lemma RunOfIsUnique(msgs: seq<Msg>, a: nat, b: nat, j: nat)
    requires j < |msgs| && msgs[j].ContextMsg? && InRunOf(msgs, a, j) && InRunOf(msgs, b, j)
    ensures a == b
  {
    var pos := Positions(msgs);
    if a < b {
      RunsAreDisjoint(msgs, pos[a], pos[b], j);
    } else if b < a {
      RunsAreDisjoint(msgs, pos[b], pos[a], j);
    }
  }

  lemma InSomeRunIff(msgs: seq<Msg>, j: nat)
    requires j < |msgs| && msgs[j].ContextMsg?
    ensures (exists m :: InRunOf(msgs, m, j)) <==> HasMatchBefore(msgs, j)
  {
    var pos := Positions(msgs);
    if m: nat :| InRunOf(msgs, m, j) {
      InRunIff(msgs, pos[m], j);
      assert forall n :: 0 <= n < j ==> msgs[..j][n] == msgs[n];
      assert SameFile(msgs, pos[m], j);
    }
    if HasMatchBefore(msgs, j) {
      var i :| 0 <= i < j && msgs[i].MatchMsg? && SameFile(msgs, i, j);
      var last := LastMatch(msgs, i, j);
      var m := PositionOf(msgs, last);
      InRunIff(msgs, last, j);
      assert InRunOf(msgs, m, j);
    }
  }

  /** A context message belongs to the run of a match if and only if some match precedes it in its file,
      and then to the run of exactly one: with `ContextGoesToPrecedingMatch`, it is recorded once or not
      at all. */
  lemma EachContextOnce(msgs: seq<Msg>, j: nat)
    requires j < |msgs| && msgs[j].ContextMsg?
    ensures (exists m :: InRunOf(msgs, m, j)) <==> HasMatchBefore(msgs, j)
    ensures forall a, b :: InRunOf(msgs, a, j) && InRunOf(msgs, b, j) ==> a == b
  {
    InSomeRunIff(msgs, j);
    forall a, b | InRunOf(msgs, a, j) && InRunOf(msgs, b, j) ensures a == b {
      RunOfIsUnique(msgs, a, b, j);
    }
  }

  /** Entry `a` of the context of the `m`-th result is the text of the message at `j`. */
  predicate Recorded(msgs: seq<Msg>, rel: string -> string, m: nat, a: nat, j: nat) {
    var matches := Parse(msgs, rel).matches;
    && m < |matches| && a < |matches[m].after|
    && m < |Positions(msgs)| && a < |RunIndices(msgs, Positions(msgs)[m] + 1)|
    && RunIndices(msgs, Positions(msgs)[m] + 1)[a] == j
    && j < |msgs| && msgs[j].ContextMsg? && matches[m].after[a] == TrimLineEnd(msgs[j].text)
  }

  /** Every entry of every result comes from a message. */
  lemma EntryIsRecorded(msgs: seq<Msg>, rel: string -> string, m: nat, a: nat)
    requires Ordered(msgs) && m < |Parse(msgs, rel).matches| && a < |Parse(msgs, rel).matches[m].after|
    ensures m < |Positions(msgs)| && a < |RunIndices(msgs, Positions(msgs)[m] + 1)|
    ensures Recorded(msgs, rel, m, a, RunIndices(msgs, Positions(msgs)[m] + 1)[a])
  {
    ContextGoesToPrecedingMatch(msgs, rel);
    RunIndicesAre(msgs, Positions(msgs)[m] + 1);
  }

  lemma RunIsRecorded(msgs: seq<Msg>, rel: string -> string, m: nat, j: nat) returns (a: nat)
    requires Ordered(msgs) && InRunOf(msgs, m, j)
    ensures Recorded(msgs, rel, m, a, j)
  {
    ContextGoesToPrecedingMatch(msgs, rel);
    RunIndicesAre(msgs, Positions(msgs)[m] + 1);
    var run := RunIndices(msgs, Positions(msgs)[m] + 1);
    var k :| 0 <= k < |run| && run[k] == j;
    a := k;
  }

  lemma RecordedOnce(msgs: seq<Msg>, rel: string -> string, m: nat, a: nat, n: nat, b: nat, j: nat)
    requires Recorded(msgs, rel, m, a, j) && Recorded(msgs, rel, n, b, j)
    ensures m == n && a == b
  {
    assert InRunOf(msgs, m, j) && InRunOf(msgs, n, j);
    RunOfIsUnique(msgs, m, n, j);
    RunIndicesAre(msgs, Positions(msgs)[m] + 1);
  }

  /** In terms of the results: on ordered streams a context line is in the context of some result exactly if
      a match precedes it in its file, and then in one place only. */
  lemma RecordedIff(msgs: seq<Msg>, rel: string -> string, j: nat)
    requires Ordered(msgs) && j < |msgs| && msgs[j].ContextMsg?
    ensures (exists m, a :: Recorded(msgs, rel, m, a, j)) <==> HasMatchBefore(msgs, j)
    ensures forall m, a, n, b :: Recorded(msgs, rel, m, a, j) && Recorded(msgs, rel, n, b, j) ==> m == n && a == b
  {
    EachContextOnce(msgs, j);
    if HasMatchBefore(msgs, j) {
      var m :| InRunOf(msgs, m, j);
      var a := RunIsRecorded(msgs, rel, m, j);
    }
    if m: nat, a: nat :| Recorded(msgs, rel, m, a, j) {
      assert InRunOf(msgs, m, j);
    }
    forall m, a, n, b | Recorded(msgs, rel, m, a, j) && Recorded(msgs, rel, n, b, j) ensures m == n && a == b {
      RecordedOnce(msgs, rel, m, a, n, b, j);
    }
  }

  /** So context ahead of the first match of a file is lost. */
  lemma ContextBeforeIsLost(path: string, before: string, text: string, rel: string -> string)
    ensures var msgs := [BeginMsg, ContextMsg(path, 1, before), MatchMsg(path, 2, text)];
      && Ordered(msgs)
      && Parse(msgs, rel).matches == [GrepMatch(rel(path), 2, TrimLineEnd(text), [], [])]
  {
    var msg0, msg1, msg2 := BeginMsg, ContextMsg(path, 1, before), MatchMsg(path, 2, text);
    var msgs := [msg0, msg1, msg2];
    assert msgs[..2] == [msg0, msg1] && [msg0, msg1][..1] == [msg0] && [msg0][..0] == [];
    assert Parse([msg0], rel) == Parsed([], false);
    assert Parse([msg0, msg1], rel) == Parsed([], false);
  }

  /** The last match before `j`, at or after the match `i`. */
  lemma {:induction false} LastMatch(msgs: seq<Msg>, i: nat, j: nat) returns (last: nat)
    requires i < j < |msgs| && msgs[i].MatchMsg? && SameFile(msgs, i, j)
    ensures i <= last < j && msgs[last].MatchMsg? && Open(msgs[..j], last + 1)
    decreases j - i
  {
    assert forall n :: 0 <= n < j ==> msgs[..j][n] == msgs[n];
    if next :| i < next < j && msgs[next].MatchMsg? {
      last := LastMatch(msgs, next, j);
    } else {
      last := i;
    }
  }

  lemma {:induction false} PositionOf(msgs: seq<Msg>, i: nat) returns (m: nat)
    requires i < |msgs| && msgs[i].MatchMsg?
    ensures m < |Positions(msgs)| && Positions(msgs)[m] == i
  {
    if i == |msgs| - 1 {
      m := |Positions(msgs)| - 1;
    } else {
      m := PositionOf(msgs[..|msgs| - 1], i);
    }
  }
}
