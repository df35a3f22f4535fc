/** runBash of worker/bash.go after cmd.Start: two pipe readers, the timeout watcher and the caller's
    goroutine, as a state machine with one step per scan, send, channel operation, lock or wait. */
module BashProtocol {
  import opened Basics

  /** ExitCodeTimeout: 128 + SIGKILL */
  const EXIT_CODE_TIMEOUT: int := 137

  /** `make(chan error, 2)` */
  const ERR_SLOTS: nat := 2

  datatype Event = Stdout(line: string) | Stderr(line: string) | ExitCode(code: int)

  datatype PipeError = SendError(stdout: bool) | ScanError(stdout: bool)

  datatype ReaderPc = Scanning | Sending(line: string) | Posting(error: PipeError) | Done

  /** `scanned`: the lines the scanner has yielded; `failed`: a send of this reader has failed. */
  datatype Reader = Reader(pc: ReaderPc, scanned: seq<string>, posted: nat, failed: bool)

  datatype WaitResult = WaitOk | WaitExitError(code: int) | WaitOtherError

  datatype Command = Alive | DiedAlone(wait: WaitResult) | KilledByWatcher

  /** A process killed by a signal has no exit code: (*ExitError).ExitCode() is -1. */
  function WaitOn(c: Command): WaitResult
    requires !c.Alive?
  {
    if c.DiedAlone? then c.wait else WaitExitError(-1)
  }

  datatype WatcherPc = AwaitingCtx | Marked | Killed

  datatype MainPc =
    | JoiningReaders
    | ClosingErrs
    | DrainingErrs
    | InWait
    | HasWaited(wait: WaitResult)
    | HasFlag(wait: WaitResult, wasTimeout: bool)
    | Returned(ok: bool)

  datatype State = State(
    out: Reader,
    err: Reader,
    errCh: seq<PipeError>,
    errClosed: bool,
    panicked: bool,
    emitted: seq<Event>,
    ctxDone: bool,
    timedOut: bool,
    watcher: WatcherPc,
    command: Command,
    main: MainPc)
  {
    function At(stdout: bool): Reader { if stdout then out else err }
    function Put(stdout: bool, r: Reader): State { if stdout then this.(out := r) else this.(err := r) }
  }

  const NEW_READER: Reader := Reader(Scanning, [], 0, false)

  const INIT: State :=
    State(NEW_READER, NEW_READER, [], false, false, [], false, false, AwaitingCtx, Alive, JoiningReaders)

  datatype Step =
    | ScanLine(stdout: bool, line: string)
    | EndScan(stdout: bool, error: bool)
    | SendLine(stdout: bool, ok: bool)
    | PostError(stdout: bool)
    | CtxEnds
    | SetTimedOut
    | KillGroup
    | CommandEnds(wait: WaitResult)
    | JoinReaders
    | CloseErrs
    | DrainErr
    | EndDrain
    | Wait
    | ReadTimedOut
    | SendExit(ok: bool)

  predicate Enabled(s: State, step: Step) {
    match step
    case ScanLine(b, _) => s.At(b).pc.Scanning?
    case EndScan(b, _) => s.At(b).pc.Scanning?
    case SendLine(b, _) => s.At(b).pc.Sending?
    // A send on a full channel blocks; on a closed one it panics.
    case PostError(b) => s.At(b).pc.Posting? && (|s.errCh| < ERR_SLOTS || s.errClosed)
    case CtxEnds => !s.ctxDone
    case SetTimedOut => s.watcher.AwaitingCtx? && s.ctxDone
    case KillGroup => s.watcher.Marked?
    case CommandEnds(_) => s.command.Alive?
    case JoinReaders => s.main.JoiningReaders? && s.out.pc.Done? && s.err.pc.Done?
    case CloseErrs => s.main.ClosingErrs?
    case DrainErr => s.main.DrainingErrs? && s.errCh != []
    case EndDrain => s.main.DrainingErrs? && s.errCh == [] && s.errClosed
    case Wait => s.main.InWait? && !s.command.Alive?
    case ReadTimedOut => s.main.HasWaited?
    case SendExit(_) => s.main.HasFlag?
  }

  function LineEvent(stdout: bool, line: string): Event {
    if stdout then Stdout(line) else Stderr(line)
  }

  function DoSendLine(s: State, b: bool, ok: bool): State
    requires s.At(b).pc.Sending?
  {
    var r := s.At(b);
    if ok then s.Put(b, r.(pc := Scanning)).(emitted := s.emitted + [LineEvent(b, r.pc.line)])
    else s.Put(b, r.(pc := Posting(SendError(b)), failed := true))
  }

  function DoPostError(s: State, b: bool): State
    requires s.At(b).pc.Posting?
  {
    var r := s.At(b);
    if s.errClosed then s.(panicked := true)
    else s.Put(b, r.(pc := Done, posted := r.posted + 1)).(errCh := s.errCh + [r.pc.error])
  }

  /** The exit code chosen from the flag and the result of cmd.Wait. */
  function CodeFor(wait: WaitResult, wasTimeout: bool): int {
    if wasTimeout then EXIT_CODE_TIMEOUT
    else match wait
      case WaitOk => 0
      case WaitExitError(code) => code
      case WaitOtherError => 1
  }

  function Apply(s: State, step: Step): State
    requires Enabled(s, step)
  {
    match step
    case ScanLine(b, line) =>
      var r := s.At(b);
      s.Put(b, r.(pc := Sending(line), scanned := r.scanned + [line]))
    case EndScan(b, error) => s.Put(b, s.At(b).(pc := if error then Posting(ScanError(b)) else Done))
    case SendLine(b, ok) => DoSendLine(s, b, ok)
    case PostError(b) => DoPostError(s, b)
    case CtxEnds => s.(ctxDone := true)
    case SetTimedOut => s.(timedOut := true, watcher := Marked)
    case KillGroup => s.(watcher := Killed, command := if s.command.Alive? then KilledByWatcher else s.command)
    case CommandEnds(wait) => s.(command := DiedAlone(wait))
    case JoinReaders => s.(main := ClosingErrs)
    case CloseErrs => if s.errClosed then s.(panicked := true) else s.(errClosed := true, main := DrainingErrs)
    case DrainErr => s.(errCh := s.errCh[1..])
    case EndDrain => s.(main := InWait)
    case Wait => s.(main := HasWaited(WaitOn(s.command)))
    case ReadTimedOut => s.(main := HasFlag(s.main.wait, s.timedOut))
    case SendExit(ok) =>
      s.(main := Returned(ok),
         emitted := if ok then s.emitted + [ExitCode(CodeFor(s.main.wait, s.main.wasTimeout))] else s.emitted)
  }

  /** `steps[i]` leads from `states[i]` to `states[i + 1]`. */
  predicate StepAt(states: seq<State>, steps: seq<Step>, i: nat)
    requires i < |steps| && |states| == |steps| + 1
  {
    Enabled(states[i], steps[i]) && states[i + 1] == Apply(states[i], steps[i])
  }

  predicate Behaviour(states: seq<State>, steps: seq<Step>) {
    && |states| == |steps| + 1
    && states[0] == INIT
    && forall i :: 0 <= i < |steps| ==> StepAt(states, steps, i)
  }

  // ---- the lines of one stream, and merges ----

  function Lines(events: seq<Event>, stdout: bool): seq<string> {
    if events == [] then []
    else
      var front := Lines(events[..|events| - 1], stdout);
      var e := events[|events| - 1];
      if e == LineEvent(stdout, LineOf(e)) then front + [LineOf(e)] else front
  }

  function LineOf(e: Event): string {
    match e
    case Stdout(line) => line
    case Stderr(line) => line
    case ExitCode(_) => ""
  }

  predicate NoExit(events: seq<Event>) {
    forall i :: 0 <= i < |events| ==> !events[i].ExitCode?
  }

  /** `z` interleaves `out` and `err`, each in its own order. */
  predicate IsMerge(z: seq<Event>, out: seq<string>, err: seq<string>)
    decreases |z|
  {
    if z == [] then out == [] && err == []
    else
      var front, e := z[..|z| - 1], z[|z| - 1];
      || (e.Stdout? && out != [] && out[|out| - 1] == e.line && IsMerge(front, out[..|out| - 1], err))
      || (e.Stderr? && err != [] && err[|err| - 1] == e.line && IsMerge(front, out, err[..|err| - 1]))
  }

  /** Being a merge is having the two sequences as the two projections. */
  lemma {:induction false} MergeIffProjections(z: seq<Event>, out: seq<string>, err: seq<string>)
    ensures IsMerge(z, out, err) <==> NoExit(z) && Lines(z, true) == out && Lines(z, false) == err
    decreases |z|
  {
    if z != [] {
      var front, e := z[..|z| - 1], z[|z| - 1];
      if e.Stdout? && out != [] {
        MergeIffProjections(front, out[..|out| - 1], err);
        FrontLast(out);
      } else if e.Stderr? && err != [] {
        MergeIffProjections(front, out, err[..|err| - 1]);
        FrontLast(err);
      }
      assert NoExit(z) <==> NoExit(front) && !e.ExitCode?;
    }
  }

  // ---- invariant ----

  predicate ReaderOk(s: State, b: bool) {
    var r := s.At(b);
    && r.posted <= 1
    && (!r.pc.Done? ==> r.posted == 0)
    && (r.pc.Scanning? || r.pc.Sending? ==> !r.failed)
    && (!r.failed ==> r.scanned == Lines(s.emitted, b) + if r.pc.Sending? then [r.pc.line] else [])
  }

  predicate PastJoin(main: MainPc) {
    !main.JoiningReaders?
  }

  predicate MainOk(s: State) {
    && (PastJoin(s.main) ==> s.out.pc.Done? && s.err.pc.Done?)
    && (s.errClosed <==> PastJoin(s.main) && !s.main.ClosingErrs?)
    && |s.errCh| <= s.out.posted + s.err.posted
    && !s.panicked
  }

  predicate DeathOk(s: State) {
    && (s.timedOut <==> !s.watcher.AwaitingCtx?)
    && (s.timedOut ==> s.ctxDone)
    && (s.command.KilledByWatcher? ==> s.timedOut)
    && (s.main.HasWaited? || s.main.HasFlag? || s.main.Returned? ==> !s.command.Alive?)
    && (s.main.HasWaited? || s.main.HasFlag? ==> s.main.wait == WaitOn(s.command))
    && (s.main.HasFlag? ==>
          (s.command.KilledByWatcher? ==> s.main.wasTimeout) && (s.main.wasTimeout ==> s.timedOut))
  }

  /** The code that stands for a result of cmd.Wait: 0 for success, the command's own for an exit error, and 1 for
      any other error. */
  predicate Reports(code: int, wait: WaitResult) {
    && (wait.WaitOk? ==> code == 0)
    && (wait.WaitExitError? ==> code == wait.code)
    && (wait.WaitOtherError? ==> code == 1)
  }

  /** The last event of a finished call: the code of the command, or 137 if the flag was seen. */
  predicate ExitOk(s: State) {
    if s.main == Returned(true) then
      && s.emitted != [] && NoExit(s.emitted[..|s.emitted| - 1])
      && s.emitted[|s.emitted| - 1].ExitCode? && !s.command.Alive?
      && var code := s.emitted[|s.emitted| - 1].code;
         || (s.timedOut && code == EXIT_CODE_TIMEOUT)
         || (s.command.DiedAlone? && code == CodeFor(s.command.wait, false))
    else NoExit(s.emitted)
  }

  predicate Inv(s: State) {
    ReaderOk(s, true) && ReaderOk(s, false) && MainOk(s) && DeathOk(s) && ExitOk(s)
  }

  lemma LinesSnoc(events: seq<Event>, e: Event, stdout: bool)
    ensures Lines(events + [e], stdout)
         == Lines(events, stdout) + if e == LineEvent(stdout, LineOf(e)) then [LineOf(e)] else []
  {
    assert (events + [e])[..|events|] == events;
  }

  lemma SendLineKeeps(s: State, b: bool, ok: bool)
    requires Inv(s) && Enabled(s, SendLine(b, ok))
    ensures Inv(Apply(s, SendLine(b, ok)))
  {
    if ok {
      LinesSnoc(s.emitted, LineEvent(b, s.At(b).pc.line), true);
      LinesSnoc(s.emitted, LineEvent(b, s.At(b).pc.line), false);
    }
  }

  lemma SendExitKeeps(s: State, ok: bool)
    requires Inv(s) && Enabled(s, SendExit(ok))
    ensures Inv(Apply(s, SendExit(ok)))
  {
    if ok {
      var e := ExitCode(CodeFor(s.main.wait, s.main.wasTimeout));
      LinesSnoc(s.emitted, e, true);
      LinesSnoc(s.emitted, e, false);
      assert (s.emitted + [e])[..|s.emitted|] == s.emitted;
    }
  }

  lemma ReaderStepKeeps(s: State, step: Step)
    requires Inv(s) && Enabled(s, step) && (step.ScanLine? || step.EndScan? || step.PostError?)
    ensures Inv(Apply(s, step))
  {
  }

  lemma DeathStepKeeps(s: State, step: Step)
    requires Inv(s) && Enabled(s, step)
    requires step.CtxEnds? || step.SetTimedOut? || step.KillGroup? || step.CommandEnds?
    ensures Inv(Apply(s, step))
  {
  }

  lemma StepKeepsInv(s: State, step: Step)
    requires Inv(s) && Enabled(s, step)
    ensures Inv(Apply(s, step))
  {
    match step {
      case ScanLine(_, _) => ReaderStepKeeps(s, step);
      case EndScan(_, _) => ReaderStepKeeps(s, step);
      case PostError(_) => ReaderStepKeeps(s, step);
      case SendLine(b, ok) => SendLineKeeps(s, b, ok);
      case SendExit(ok) => SendExitKeeps(s, ok);
      case CtxEnds => DeathStepKeeps(s, step);
      case SetTimedOut => DeathStepKeeps(s, step);
      case KillGroup => DeathStepKeeps(s, step);
      case CommandEnds(_) => DeathStepKeeps(s, step);
      case _ =>
    }
  }

  lemma {:induction false} BehaviourInv(states: seq<State>, steps: seq<Step>, i: nat)
    requires Behaviour(states, steps) && i < |states|
    ensures Inv(states[i])
  {
    if i > 0 {
      BehaviourInv(states, steps, i - 1);
      assert StepAt(states, steps, i - 1);
      StepKeepsInv(states[i - 1], steps[i - 1]);
    }
  }

  // ---- theorems ----

  /** Two slots always suffice: a reader that has an error to post neither blocks nor panics, because
      each reader posts at most one and the channel is closed only after both are done. */
  lemma PostingNeverBlocks(states: seq<State>, steps: seq<Step>, i: nat, b: bool)
    requires Behaviour(states, steps) && i < |states|
    ensures !states[i].panicked
    ensures states[i].At(b).pc.Posting? ==> Enabled(states[i], PostError(b)) && !states[i].errClosed
    ensures |states[i].errCh| <= ERR_SLOTS
  {
    BehaviourInv(states, steps, i);
    assert ReaderOk(states[i], b) && ReaderOk(states[i], !b);
  }

  /** While the call has not returned, either one of its own goroutines can move, or it is waiting for
      the command: for output, for a pipe to end, or for the exit. */
  lemma OnlyTheCommandBlocks(states: seq<State>, steps: seq<Step>, i: nat)
    requires Behaviour(states, steps) && i < |states| && !states[i].main.Returned?
    ensures var s := states[i];
      || s.out.pc.Scanning? || s.err.pc.Scanning? || (s.main.InWait? && s.command.Alive?)
      || exists step :: Enabled(s, step) && !step.ScanLine? && !step.EndScan? && !step.CtxEnds? && !step.CommandEnds?
  {
    BehaviourInv(states, steps, i);
    PostingNeverBlocks(states, steps, i, true);
    PostingNeverBlocks(states, steps, i, false);
    var s := states[i];
    var b := s.out.pc.Sending? || s.out.pc.Posting?;
    var own := if s.At(b).pc.Sending? then SendLine(b, true)
      else if s.At(b).pc.Posting? then PostError(b)
      else match s.main
        case JoiningReaders => JoinReaders
        case ClosingErrs => CloseErrs
        case DrainingErrs => if s.errCh != [] then DrainErr else EndDrain
        case InWait => Wait
        case HasWaited(_) => ReadTimedOut
        case _ => SendExit(true);
    assert !own.ScanLine? && !own.EndScan? && !own.CtxEnds? && !own.CommandEnds?;
    if !s.out.pc.Scanning? && !s.err.pc.Scanning? && !(s.main.InWait? && s.command.Alive?) {
      assert Enabled(s, own);
    }
  }

  /** If no send failed, a finished call has emitted a merge of the two line sequences and then exactly
      one exit event, in every schedule. */
  lemma FinishedEmitsMergeThenExit(states: seq<State>, steps: seq<Step>, i: nat)
    requires Behaviour(states, steps) && i < |states|
    requires states[i].main == Returned(true) && !states[i].out.failed && !states[i].err.failed
    ensures var s := states[i];
      exists lines, code :: s.emitted == lines + [ExitCode(code)] && IsMerge(lines, s.out.scanned, s.err.scanned)
  {
    BehaviourInv(states, steps, i);
    var s := states[i];
    var lines, last := s.emitted[..|s.emitted| - 1], s.emitted[|s.emitted| - 1];
    assert s.emitted == lines + [ExitCode(last.code)];
    LinesSnoc(lines, last, true);
    LinesSnoc(lines, last, false);
    assert ReaderOk(s, true) && ReaderOk(s, false);
    MergeIffProjections(lines, s.out.scanned, s.err.scanned);
  }

  /** A command that died of the watcher's kill is always reported with 137: the flag was set before
      the kill, the kill came before cmd.Wait returned, and the flag is read after that. The code 137
      is reported only if the context had ended by then or the command itself exited with 137. */
  lemma TimeoutIsReported(states: seq<State>, steps: seq<Step>, i: nat)
    requires Behaviour(states, steps) && i < |states| && states[i].main == Returned(true)
    ensures var s := states[i];
      && s.emitted != [] && s.emitted[|s.emitted| - 1].ExitCode?
      && var code := s.emitted[|s.emitted| - 1].code;
         && (s.command.KilledByWatcher? ==> code == 137)
         && (code == 137 ==> s.ctxDone || s.command == DiedAlone(WaitExitError(137)))
         && (!s.ctxDone ==> s.command.DiedAlone? && Reports(code, s.command.wait))
  {
    BehaviourInv(states, steps, i);
  }

  /** Which of the two holds is decided when the flag is read: the code is 137 exactly if the watcher
      had set the flag by then or the command exited with 137, and otherwise the command's own. */
  lemma CodeIsDecidedAtTheFlag(states: seq<State>, steps: seq<Step>, i: nat)
    requires Behaviour(states, steps) && i + 1 < |states| && steps[i] == ReadTimedOut
    ensures states[i + 1].main.HasFlag? && !states[i].command.Alive?
    ensures var m, s := states[i + 1].main, states[i];
      CodeFor(m.wait, m.wasTimeout) ==
        if s.timedOut then EXIT_CODE_TIMEOUT else CodeFor(WaitOn(s.command), false)
    ensures states[i].command.KilledByWatcher? ==> states[i].timedOut
  {
    BehaviourInv(states, steps, i);
    assert StepAt(states, steps, i);
  }

  /** The command is dead and the flag has been read as `was`; a finished call has sent the code. */
  predicate Settled(s: State, c: Command, was: bool) {
    && !c.Alive? && s.command == c
    && match s.main
       case HasFlag(wait, wasTimeout) => wait == WaitOn(c) && wasTimeout == was
       case Returned(ok) =>
         ok ==> s.emitted != [] && s.emitted[|s.emitted| - 1] == ExitCode(CodeFor(WaitOn(c), was))
       case _ => false
  }

  lemma StepKeepsSettled(s: State, step: Step, c: Command, was: bool)
    requires Inv(s) && Enabled(s, step) && Settled(s, c, was)
    ensures Settled(Apply(s, step), c, was)
  {
  }

  lemma {:induction false} StaysSettled(states: seq<State>, steps: seq<Step>, i: nat, j: nat, c: Command, was: bool)
    requires Behaviour(states, steps) && i <= j < |states| && Settled(states[i], c, was)
    ensures Settled(states[j], c, was)
    decreases j
  {
    if i < j {
      StaysSettled(states, steps, i, j - 1, c, was);
      BehaviourInv(states, steps, j - 1);
      assert StepAt(states, steps, j - 1);
      StepKeepsSettled(states[j - 1], steps[j - 1], c, was);
    }
  }

  lemma {:induction false} FlagIffSet(states: seq<State>, steps: seq<Step>, i: nat)
    requires Behaviour(states, steps) && i < |states|
    ensures states[i].timedOut <==> SetTimedOut in steps[..i]
  {
    if i > 0 {
      FlagIffSet(states, steps, i - 1);
      assert StepAt(states, steps, i - 1);
      assert steps[..i] == steps[..i - 1] + [steps[i - 1]];
    }
  }

  /** A finished call has read the flag exactly where its code was decided. */
  lemma {:induction false} FlagWasRead(states: seq<State>, steps: seq<Step>, j: nat) returns (i: nat)
    requires Behaviour(states, steps) && j < |states| && (states[j].main.HasFlag? || states[j].main.Returned?)
    ensures i < j && steps[i] == ReadTimedOut
  {
    assert StepAt(states, steps, j - 1);
    if steps[j - 1] == ReadTimedOut {
      i := j - 1;
    } else {
      i := FlagWasRead(states, steps, j - 1);
    }
  }

  /** The code that a finished call has sent: 137 if the watcher had set the flag when it was read; otherwise the
      command has died by itself and the code reports its result. So it reports the result of a command that died
      by itself if and only if the flag was not set when it was read, or 137 is the command's own code. */
  lemma CodeIsOwnIff(states: seq<State>, steps: seq<Step>, i: nat, j: nat)
    requires Behaviour(states, steps) && i < j < |states| && steps[i] == ReadTimedOut
    requires states[j].main == Returned(true)
    ensures !states[j].command.Alive?
    ensures var emitted, c := states[j].emitted, states[j].command;
      && emitted != [] && emitted[|emitted| - 1].ExitCode?
      && var code := emitted[|emitted| - 1].code;
         && (SetTimedOut in steps[..i] ==> code == 137)
         && (SetTimedOut !in steps[..i] ==> c.DiedAlone? && Reports(code, c.wait))
         && (c.DiedAlone? ==> (Reports(code, c.wait) <==> SetTimedOut !in steps[..i] || Reports(137, c.wait)))
  {
    CodeIsDecidedAtTheFlag(states, steps, i);
    BehaviourInv(states, steps, i);
    assert StepAt(states, steps, i);
    FlagIffSet(states, steps, i);
    StaysSettled(states, steps, i + 1, j, states[i].command, states[i].timedOut);
  }

  // ---- every call comes to an end ----

  function ReaderWork(r: Reader): nat {
    match r.pc
    case Sending(_) => 4
    case Scanning => 3
    case Posting(_) => 2
    case Done => 0
  }

  function MainWork(main: MainPc): nat {
    match main
    case JoiningReaders => 6
    case ClosingErrs => 5
    case DrainingErrs => 4
    case InWait => 3
    case HasWaited(_) => 2
    case HasFlag(_, _) => 1
    case Returned(_) => 0
  }

  /** A bound on the steps that are left if no further line is scanned. */
  function Work(s: State): nat {
    ReaderWork(s.out) + ReaderWork(s.err) + |s.errCh| + MainWork(s.main)
    + (if s.ctxDone then 0 else 1) + (if s.command.Alive? then 1 else 0)
    + (match s.watcher case AwaitingCtx => 2 case Marked => 1 case Killed => 0)
  }

  /** From `s` to `s'` there were `n` steps, paid for by the work of `s` and two for each line scanned. */
  predicate Spent(s: State, s': State, n: nat) {
    n + Work(s') <= Work(s) + 2 * (|s'.out.scanned| + |s'.err.scanned| - |s.out.scanned| - |s.err.scanned|)
  }

  predicate OfReader(step: Step) {
    step.ScanLine? || step.EndScan? || step.SendLine? || step.PostError?
  }

  lemma ReaderStepUsesWork(s: State, step: Step)
    requires Inv(s) && Enabled(s, step) && OfReader(step)
    ensures Spent(s, Apply(s, step), 1)
  {
  }

  lemma OtherStepUsesWork(s: State, step: Step)
    requires Inv(s) && Enabled(s, step) && !OfReader(step)
    ensures Spent(s, Apply(s, step), 1)
  {
  }

  /** A call that scans n lines has at most 16 + 2n steps, so from any state on there are at most as many
      as its work, unless the command writes more lines: no schedule goes on for ever. With
      `OnlyTheCommandBlocks`, the call returns once the command is dead and its pipes have ended. */
  lemma {:induction false} RunIsBounded(states: seq<State>, steps: seq<Step>, i: nat, j: nat)
    requires Behaviour(states, steps) && i <= j < |states|
    ensures Spent(states[i], states[j], j - i) && Work(states[0]) == 16
    decreases j
  {
    if i < j {
      RunIsBounded(states, steps, i, j - 1);
      BehaviourInv(states, steps, j - 1);
      assert StepAt(states, steps, j - 1);
      if OfReader(steps[j - 1]) {
        ReaderStepUsesWork(states[j - 1], steps[j - 1]);
      } else {
        OtherStepUsesWork(states[j - 1], steps[j - 1]);
      }
    }
  }

  lemma Extend(states: seq<State>, steps: seq<Step>, step: Step) returns (states': seq<State>, steps': seq<Step>)
    requires Behaviour(states, steps) && Enabled(states[|steps|], step)
    ensures Behaviour(states', steps') && steps' == steps + [step]
    ensures states'[|steps'|] == Apply(states[|steps|], step)
  {
    states', steps' := states + [Apply(states[|steps|], step)], steps + [step];
    forall i | 0 <= i < |steps'| ensures StepAt(states', steps', i) {
      if i < |steps| {
        assert StepAt(states, steps, i);
      }
    }
  }

  /** The converse fails: a command that succeeded by itself is reported with 137 if the context ends
      between its exit and the read of the flag. */
  lemma LateTimeoutMasksExit() returns (states: seq<State>, steps: seq<Step>)
    ensures Behaviour(states, steps)
    ensures states[|steps|].command == DiedAlone(WaitOk)
    ensures states[|steps|].main == Returned(true) && states[|steps|].emitted == [ExitCode(EXIT_CODE_TIMEOUT)]
  {
    states, steps := ReturnsFromWait();
    states, steps := Extend(states, steps, CtxEnds);
    states, steps := Extend(states, steps, SetTimedOut);
    states, steps := Extend(states, steps, ReadTimedOut);
    states, steps := Extend(states, steps, SendExit(true));
  }

  lemma ReturnsFromWait() returns (states: seq<State>, steps: seq<Step>)
    ensures Behaviour(states, steps)
    ensures var idle := Reader(Done, [], 0, false);
      states[|steps|]
        == State(idle, idle, [], true, false, [], false, false, AwaitingCtx, DiedAlone(WaitOk), HasWaited(WaitOk))
  {
    states, steps := [INIT], [];
    states, steps := Extend(states, steps, EndScan(true, false));
    states, steps := Extend(states, steps, EndScan(false, false));
    states, steps := Extend(states, steps, JoinReaders);
    states, steps := Extend(states, steps, CloseErrs);
    var idle := Reader(Done, [], 0, false);
    assert states[|steps|]
      == State(idle, idle, [], true, false, [], false, false, AwaitingCtx, Alive, DrainingErrs);
    states, steps := Extend(states, steps, EndDrain);
    states, steps := Extend(states, steps, CommandEnds(WaitOk));
    states, steps := Extend(states, steps, Wait);
  }
}
