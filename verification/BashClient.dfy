/** DirectOps.RunBash of mcptools/direct_ops.go: the client side fold over the events of runBash. */
module BashClient {
  import opened Basics
  import opened BashProtocol
  import opened Strings

  datatype BashResult = BashResult(stdout: string, stderr: string, exitCode: int)

  datatype ClientResult = Result(result: BashResult) | StreamError

  function Concat(lines: seq<string>): string {
    if lines == [] then "" else Concat(lines[..|lines| - 1]) + lines[|lines| - 1]
  }

  /** The last exit code in the stream, 0 when there is none. */
  function LastExit(events: seq<Event>): int {
    if events == [] then 0
    else if events[|events| - 1].ExitCode? then events[|events| - 1].code
    else LastExit(events[..|events| - 1])
  }

  /** What the client makes of a stream of events. */
  function Folded(events: seq<Event>): BashResult {
    BashResult(Concat(Lines(events, true)), Concat(Lines(events, false)), LastExit(events))
  }

  method RunBash(events: seq<Event>, streamFailed: bool) returns (r: ClientResult)
    ensures streamFailed <==> r.StreamError?
    ensures r.Result? ==> r.result == Folded(events)
  {
    var stdout, stderr, exitCode := "", "", 0;
    for i := 0 to |events|
      invariant stdout == Concat(Lines(events[..i], true))
      invariant stderr == Concat(Lines(events[..i], false))
      invariant exitCode == LastExit(events[..i])
    {
      assert events[..i + 1] == events[..i] + [events[i]];
      LinesSnoc(events[..i], events[i], true);
      LinesSnoc(events[..i], events[i], false);
      ConcatSnoc(Lines(events[..i], true), LineOf(events[i]));
      ConcatSnoc(Lines(events[..i], false), LineOf(events[i]));
      LastExitSnoc(events[..i], events[i]);
      match events[i] {
        case Stdout(line) => stdout := stdout + line;
        case Stderr(line) => stderr := stderr + line;
        case ExitCode(code) => exitCode := code;
      }
    }
    assert events[..|events|] == events;
    if streamFailed {
      return StreamError;
    }
    return Result(BashResult(stdout, stderr, exitCode));
  }

  lemma ConcatSnoc(lines: seq<string>, line: string)
    ensures Concat(lines + [line]) == Concat(lines) + line
  {
    assert (lines + [line])[..|lines|] == lines;
  }

  lemma LastExitSnoc(events: seq<Event>, e: Event)
    ensures LastExit(events + [e]) == if e.ExitCode? then e.code else LastExit(events)
  {
    assert (events + [e])[..|events|] == events;
  }

  /** Any two merges of the same line sequences, followed by the same code, look alike to the client. */
  lemma MergesLookAlike(z: seq<Event>, out: seq<string>, err: seq<string>, code: int)
    requires IsMerge(z, out, err)
    ensures Folded(z + [ExitCode(code)]) == BashResult(Concat(out), Concat(err), code)
  {
    MergeIffProjections(z, out, err);
    LinesSnoc(z, ExitCode(code), true);
    LinesSnoc(z, ExitCode(code), false);
    LastExitSnoc(z, ExitCode(code));
  }

  /** Schedule independence, end to end: in every run in which no send failed, the client's result is
      the separator-free concatenation of what each scanner yielded, with the code of the exit event. */
  lemma ClientSeesBothStreams(states: seq<State>, steps: seq<Step>, i: nat)
    requires Behaviour(states, steps) && i < |states|
    requires states[i].main == Returned(true) && !states[i].out.failed && !states[i].err.failed
    ensures var s := states[i];
      && s.emitted != [] && s.emitted[|s.emitted| - 1].ExitCode?
      && Folded(s.emitted) ==
           BashResult(Concat(s.out.scanned), Concat(s.err.scanned), s.emitted[|s.emitted| - 1].code)
  {
    FinishedEmitsMergeThenExit(states, steps, i);
    var s := states[i];
    var lines, code :| s.emitted == lines + [ExitCode(code)] && IsMerge(lines, s.out.scanned, s.err.scanned);
    MergesLookAlike(lines, s.out.scanned, s.err.scanned, code);
  }

  /** What reaches the client of a finished call, whether or not other sends failed: 137 if the watcher had set
      the flag when it was read; otherwise 0, the code of the command's exit error, or 1, by the result of its
      wait. */
  lemma ClientSeesExitCode(states: seq<State>, steps: seq<Step>, i: nat, j: nat)
    requires Behaviour(states, steps) && i < j < |states| && steps[i] == ReadTimedOut
    requires states[j].main == Returned(true)
    ensures var code, c := Folded(states[j].emitted).exitCode, states[j].command;
      && (SetTimedOut in steps[..i] ==> code == 137)
      && (SetTimedOut !in steps[..i] ==>
            && c.DiedAlone?
            && (c.wait.WaitOk? ==> code == 0)
            && (c.wait.WaitExitError? ==> code == c.wait.code)
            && (c.wait.WaitOtherError? ==> code == 1))
  {
    CodeIsOwnIff(states, steps, i, j);
  }

  /** The code of the last exit event counts, and without any it is 0. */
  lemma {:induction false} LastExitCounts(events: seq<Event>, code: int, more: seq<Event>)
    requires NoExit(more)
    ensures Folded(more).exitCode == 0
    ensures Folded(events + [ExitCode(code)] + more).exitCode == code
  {
    var z := events + [ExitCode(code)] + more;
    if more == [] {
      assert z == events + [ExitCode(code)];
      LastExitSnoc(events, ExitCode(code));
    } else {
      var front, e := more[..|more| - 1], more[|more| - 1];
      LastExitCounts(events, code, front);
      FrontLast(more);
      Assoc(events + [ExitCode(code)], front, [e]);
      LastExitSnoc(events + [ExitCode(code)] + front, e);
    }
  }

  // ---- what the concatenation loses ----

  /** A line without one trailing carriage return. */
  function DropCR(line: string): string {
    if line != "" && line[|line| - 1] == '\r' then line[..|line| - 1] else line
  }

  /** The tokens of bufio.ScanLines on the whole of a stream: the text up to each newline, and what
      follows the last one unless it is empty. */
  function ScanLines(text: string): seq<string>
    decreases |text|
  {
    if text == "" then []
    else
      var i := LineEnd(text);
      if i == |text| then [DropCR(text)] else [DropCR(text[..i])] + ScanLines(text[i + 1..])
  }

  predicate KeepsText(text: string) {
    '\n' !in text && (text == "" || text[|text| - 1] != '\r')
  }

  lemma {:induction false} ConcatCons(line: string, lines: seq<string>)
    ensures Concat([line] + lines) == line + Concat(lines)
  {
    if lines == [] {
      assert [line] + lines == [line] && [line][..0] == [];
      assert Concat([line]) == Concat([]) + line;
    } else {
      var front, last := lines[..|lines| - 1], lines[|lines| - 1];
      ConcatCons(line, front);
      FrontLast(lines);
      Assoc([line], front, [last]);
      ConcatSnoc([line] + front, last);
      ConcatSnoc(front, last);
      Assoc(line, Concat(front), last);
    }
  }

  /** Each newline and each carriage return dropped makes the concatenation shorter than the text. */
  lemma {:induction false} ScanLosesLength(text: string)
    ensures |Concat(ScanLines(text))| <= |text|
    ensures !KeepsText(text) ==> |Concat(ScanLines(text))| < |text|
    decreases |text|
  {
    if text != "" {
      var i := LineEnd(text);
      if i == |text| {
        assert text[..i] == text;
        ConcatCons(DropCR(text), []);
        assert [DropCR(text)] + [] == [DropCR(text)];
      } else {
        ScanLosesLength(text[i + 1..]);
        ConcatCons(DropCR(text[..i]), ScanLines(text[i + 1..]));
      }
    }
  }

  /** The scanner strips line ends and the client puts none back: what the client shows for a stream is the
      text of the stream exactly if there is no newline in it and no carriage return at its end. */
  lemma ConcatKeepsTextIff(text: string)
    ensures Concat(ScanLines(text)) == text <==> KeepsText(text)
  {
    ScanLosesLength(text);
    if KeepsText(text) && text != "" {
      LineEndNone(text);
      ConcatCons(text, []);
      assert [text] + [] == [text];
    }
  }

  /** The same, end to end: in a finished call in which no send failed and each scanner has yielded the
      lines of the text of its pipe. */
  lemma ClientKeepsTextIff(states: seq<State>, steps: seq<Step>, i: nat, out: string, err: string)
    requires Behaviour(states, steps) && i < |states|
    requires states[i].main == Returned(true) && !states[i].out.failed && !states[i].err.failed
    requires states[i].out.scanned == ScanLines(out) && states[i].err.scanned == ScanLines(err)
    ensures Folded(states[i].emitted).stdout == out <==> KeepsText(out)
    ensures Folded(states[i].emitted).stderr == err <==> KeepsText(err)
  {
    ClientSeesBothStreams(states, steps, i);
    ConcatKeepsTextIff(out);
    ConcatKeepsTextIff(err);
  }
}
