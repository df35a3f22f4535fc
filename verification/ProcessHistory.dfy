/** From end to end: what the pipes yielded and cmd.Wait returned, against what is logged, fanned out,
    recorded and finally sent to a client. */
module ProcessHistory {
  import opened Basics
  import opened ProcessStore
  import opened ProcessProtocol
  import opened ProcessInvariant
  import opened ProcessTheorems
  import opened ProcessLogs

  /** The lines that the scanner of one stream of `p` has yielded. */
  function Scanned(steps: seq<Step>, p: nat, stdout: bool): seq<string> {
    if steps == [] then []
    else Scanned(steps[..|steps| - 1], p, stdout) + ScannedBy(steps[|steps| - 1], p, stdout)
  }

  function ScannedBy(step: Step, p: nat, stdout: bool): seq<string> {
    if step.Scan? && step.p == p && step.stdout == stdout then [step.line] else []
  }

  /** What cmd.Wait has returned for `p`. */
  function Waited(steps: seq<Step>, p: nat): Option<WaitResult> {
    if steps == [] then None
    else
      var last := steps[|steps| - 1];
      if last.Reap? && last.p == p then Some(last.wait) else Waited(steps[..|steps| - 1], p)
  }

  /** The code that stands for a result of cmd.Wait: 0 for success, the command's own for an exit error, and 1 for
      any other error. */
  predicate Reports(code: int, wait: WaitResult) {
    && (wait.WaitOk? ==> code == 0)
    && (wait.WaitExitError? ==> code == wait.code)
    && (wait.WaitOtherError? ==> code == 1)
  }

  /** There is a code exactly if there is a result, and it reports that result. */
  predicate Agrees(code: Option<int>, wait: Option<WaitResult>) {
    (code.Some? <==> wait.Some?) && (code.Some? ==> Reports(code.value, wait.value))
  }

  /** The lines a reader has logged or is about to log. */
  function TakenIn(s: State, p: nat, stdout: bool): seq<string> {
    if p >= |s.lives| then []
    else InHand(s.lives[p].At(stdout))
  }

  function InHand(r: Reader): seq<string> {
    r.log + if r.pc.Writing? then [r.pc.line] else []
  }

  function CodeOf(s: State, p: nat): Option<int> {
    if p < |s.lives| && s.lives[p].Reaped() then Some(s.lives[p].waiter.code) else None
  }

  lemma PutTakesIn(s: State, q: nat, b: bool, r: Reader, p: nat, stdout: bool)
    requires q < |s.lives|
    ensures TakenIn(WithReader(s, q, b, r), p, stdout)
         == if q == p && b == stdout then InHand(r) else TakenIn(s, p, stdout)
    ensures CodeOf(WithReader(s, q, b, r), p) == CodeOf(s, p)
  {
  }

  lemma FanOutTakesIn(s: State, q: nat, b: bool, p: nat, stdout: bool)
    requires Shape(s) && q < |s.lives| && s.lives[q].At(b).pc.Sending?
    ensures TakenIn(DoFanOut(s, q, b), p, stdout) == TakenIn(s, p, stdout)
    ensures CodeOf(DoFanOut(s, q, b), p) == CodeOf(s, p)
  {
  }

  lemma WriteTakesIn(s: State, q: nat, b: bool, p: nat, stdout: bool)
    requires Shape(s) && q < |s.lives| && s.lives[q].At(b).pc.Writing?
    ensures TakenIn(DoWriteLog(s, q, b), p, stdout) == TakenIn(s, p, stdout)
    ensures CodeOf(DoWriteLog(s, q, b), p) == CodeOf(s, p)
  {
    var r := s.lives[q].At(b);
    var written := Reader(Sending(r.pc.line), r.log + [r.pc.line]);
    assert InHand(written) == InHand(r);
    PutTakesIn(s, q, b, written, p, stdout);
  }

  lemma ReaderStepTakesIn(s: State, step: Step, p: nat, stdout: bool)
    requires Shape(s) && Enabled(s, step) && OfReader(step)
    ensures TakenIn(Apply(s, step), p, stdout) == TakenIn(s, p, stdout) + ScannedBy(step, p, stdout)
    ensures CodeOf(Apply(s, step), p) == CodeOf(s, p)
  {
    var r := s.lives[step.p].At(step.stdout);
    assert TakenIn(s, p, stdout) + [] == TakenIn(s, p, stdout);
    match step {
      case Scan(q, b, line) => PutTakesIn(s, q, b, r.(pc := Writing(line)), p, stdout);
      case WriteLog(q, b) => WriteTakesIn(s, q, b, p, stdout);
      case FanOutLine(q, b) => FanOutTakesIn(s, q, b, p, stdout);
      case EndOfPipe(q, b) => PutTakesIn(s, q, b, r.(pc := Finished), p, stdout);
    }
  }

  lemma ProcessStepTakesInNothing(s: State, step: Step, p: nat, stdout: bool)
    requires Shape(s) && Enabled(s, step) && OfProcess(step)
    ensures TakenIn(Apply(s, step), p, stdout) == TakenIn(s, p, stdout)
    ensures step.Reap? && step.p == p ==> CodeOf(s, p) == None && Agrees(CodeOf(Apply(s, step), p), Some(step.wait))
    ensures !(step.Reap? && step.p == p) ==> CodeOf(Apply(s, step), p) == CodeOf(s, p)
  {
  }

  /** No line is invented, lost, repeated or reordered between the pipe and the log, and the code that
      the waiter carries reports what cmd.Wait returned. */
  lemma {:induction false} HistoryIsKept(states: seq<State>, steps: seq<Step>, i: nat, p: nat, stdout: bool)
    requires Behaviour(states, steps) && i < |states|
    ensures Scanned(steps[..i], p, stdout) == TakenIn(states[i], p, stdout)
    ensures Agrees(CodeOf(states[i], p), Waited(steps[..i], p))
  {
    if i > 0 {
      HistoryIsKept(states, steps, i - 1, p, stdout);
      assert StepAt(states, steps, i - 1);
      assert steps[..i][..i - 1] == steps[..i - 1];
      var s, step := states[i - 1], steps[i - 1];
      if OfReader(step) {
        ReaderStepTakesIn(s, step, p, stdout);
      } else if OfProcess(step) {
        ProcessStepTakesInNothing(s, step, p, stdout);
      } else {
        OthersKeepLives(s, step);
      }
    }
  }

  /** Once a process is marked exited, its logs and its fan-out history hold, stream by stream, exactly
      the lines that its pipes yielded, and the recorded exit code reports what cmd.Wait returned. */
  lemma ExitedMeansComplete(states: seq<State>, steps: seq<Step>, i: nat, p: nat, stdout: bool)
    requires Behaviour(states, steps) && i < |states| && Shape(states[i])
    requires p < |states[i].lives| && states[i].store.procs[p].status.Exited?
    ensures Lines(states[i].lives[p].fan, stdout) == Scanned(steps[..i], p, stdout)
    ensures states[i].lives[p].At(stdout).log == Scanned(steps[..i], p, stdout)
    ensures Waited(steps[..i], p).Some? && Agrees(states[i].store.procs[p].exitCode, Waited(steps[..i], p))
  {
    HistoryIsKept(states, steps, i, p, stdout);
    LogMatchesLive(states, steps, i, p, stdout);
    BehaviourInv(states, steps, i);
    assert LifeOk(states[i].store.procs[p], states[i].lives[p]);
  }

  /** A client that tailed a process from its start, and lost nothing to a full buffer, has been sent all
      that the process wrote, stream by stream and in order, and then, unless that last send failed, the
      code that reports the result of cmd.Wait. */
  lemma TailFromTheStartGetsEverything(states: seq<State>, steps: seq<Step>, i: nat, c: nat,
                                       code: int, ok: bool, stdout: bool)
    requires Behaviour(states, steps) && i < |states| && c < |states[i].tails|
    requires states[i].tails[c].pc == Left(ExitSent(code, ok))
    requires states[i].tails[c].start == states[i].tails[c].dropped == 0
    ensures var sent := states[i].tails[c].sent;
      && SentLines(sent, stdout) == Scanned(steps[..i], states[i].tails[c].proc, stdout)
      && (ok ==> sent != [] && sent[|sent| - 1] == ExitMsg(code))
      && Agrees(Some(code), Waited(steps[..i], states[i].tails[c].proc))
  {
    TailEndsWithExitCode(states, steps, i, c);
    var s := states[i];
    var t := s.tails[c];
    ExitedMeansComplete(states, steps, i, t.proc, stdout);
    SentLinesOfMsgs(t.received, stdout);
    assert ok ==> t.sent[..|t.sent| - 1] == Msgs(t.received);
    assert !ok ==> t.sent == Msgs(t.received);
    assert s.lives[t.proc].fan[0..] == s.lives[t.proc].fan;
  }

  // ---- the exit code, from the wait to the client ----

  lemma WaitedSnoc(steps: seq<Step>, i: nat, p: nat)
    requires 0 < i <= |steps|
    ensures Waited(steps[..i], p) ==
      if steps[i - 1].Reap? && steps[i - 1].p == p then Some(steps[i - 1].wait) else Waited(steps[..i - 1], p)
  {
    assert steps[..i][..i - 1] == steps[..i - 1];
  }

  /** A process is waited for once. */
  lemma {:induction false} WaitedOnce(states: seq<State>, steps: seq<Step>, n: nat, i: nat, p: nat)
    requires Behaviour(states, steps) && n < i < |states| && steps[n].Reap? && steps[n].p == p
    ensures Waited(steps[..i], p) == Some(steps[n].wait)
    decreases i
  {
    WaitedSnoc(steps, i, p);
    if i > n + 1 {
      WaitedOnce(states, steps, n, i - 1, p);
      HistoryIsKept(states, steps, i - 1, p, true);
      assert StepAt(states, steps, i - 1);
    }
  }

  /** In every run: once cmd.Wait has returned `wait` for a process and its exit is recorded, the recorded code is
      0 for success, the code of an exit error, and 1 for any other error. */
  lemma RecordedCodeIsWaits(states: seq<State>, steps: seq<Step>, n: nat, i: nat, p: nat, wait: WaitResult)
    requires Behaviour(states, steps) && n < i < |states| && steps[n] == Reap(p, wait)
    requires p < |states[i].store.procs| && states[i].store.procs[p].status.Exited?
    ensures var code := states[i].store.procs[p].exitCode;
      && (wait.WaitOk? ==> code == Some(0))
      && (wait.WaitExitError? ==> code == Some(wait.code))
      && (wait.WaitOtherError? ==> code == Some(1))
  {
    BehaviourInv(states, steps, i);
    WaitedOnce(states, steps, n, i, p);
    ExitedMeansComplete(states, steps, i, p, true);
  }

  /** And so is the code in the last message of a Tail that has ended with an exit event. */
  lemma SentCodeIsWaits(states: seq<State>, steps: seq<Step>, n: nat, i: nat, c: nat, code: int, wait: WaitResult)
    requires Behaviour(states, steps) && n < i < |states| && c < |states[i].tails|
    requires steps[n] == Reap(states[i].tails[c].proc, wait) && states[i].tails[c].pc == Left(ExitSent(code, true))
    ensures var sent := states[i].tails[c].sent; sent != [] && sent[|sent| - 1] == ExitMsg(code)
    ensures wait.WaitOk? ==> code == 0
    ensures wait.WaitExitError? ==> code == wait.code
    ensures wait.WaitOtherError? ==> code == 1
  {
    TailEndsWithExitCode(states, steps, i, c);
    RecordedCodeIsWaits(states, steps, n, i, states[i].tails[c].proc, wait);
  }
}
