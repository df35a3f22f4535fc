/** What `Logs` returns for a process of the protocol: readLogFile applied to the file that the pipe
    readers are writing. */
module ProcessLogs {
  import opened Basics
  import opened ProcessStore
  import opened ProcessProtocol
  import opened ProcessInvariant
  import opened ProcessFrame
  import opened ProcessTheorems
  import opened LogFile
  import opened Strings

  predicate CleanReader(r: Reader) {
    && NewlineFree(r.log)
    && (r.pc.Writing? || r.pc.Sending? ==> '\n' !in r.pc.line)
  }

  predicate Clean(s: State) {
    forall p :: 0 <= p < |s.lives| ==> CleanReader(s.lives[p].out) && CleanReader(s.lives[p].err)
  }

  lemma OneReaderKeepsClean(s: State, p: nat, b: bool, r: Reader)
    requires Clean(s) && p < |s.lives| && CleanReader(r)
    ensures Clean(WithReader(s, p, b, r))
  {
  }

  lemma FanOutKeepsClean(s: State, p: nat, b: bool)
    requires Shape(s) && Enabled(s, FanOutLine(p, b)) && Clean(s)
    ensures Clean(DoFanOut(s, p, b))
  {
  }

  /** Start adds two new readers and the waiter leaves both alone. */
  predicate OfProcess(step: Step) {
    step.RegisterProc? || OfWaiter(step)
  }

  lemma ProcessStepKeepsClean(s: State, step: Step)
    requires Shape(s) && Enabled(s, step) && Clean(s) && OfProcess(step)
    ensures Clean(Apply(s, step))
  {
  }

  lemma OthersKeepLives(s: State, step: Step)
    requires Shape(s) && Enabled(s, step) && !OfReader(step) && !OfProcess(step)
    ensures Apply(s, step).lives == s.lives
  {
  }

  lemma ReaderStepKeepsClean(s: State, step: Step)
    requires Shape(s) && Enabled(s, step) && Clean(s) && OfReader(step)
    ensures Clean(Apply(s, step))
  {
    var r := s.lives[step.p].At(step.stdout);
    match step {
      case Scan(p, b, line) => OneReaderKeepsClean(s, p, b, r.(pc := Writing(line)));
      case WriteLog(p, b) => OneReaderKeepsClean(s, p, b, Reader(Sending(r.pc.line), r.log + [r.pc.line]));
      case FanOutLine(p, b) => FanOutKeepsClean(s, p, b);
      case EndOfPipe(p, b) => OneReaderKeepsClean(s, p, b, r.(pc := Finished));
    }
  }

  lemma StepKeepsClean(s: State, step: Step)
    requires Shape(s) && Enabled(s, step) && Clean(s)
    ensures Clean(Apply(s, step))
  {
    if OfReader(step) {
      ReaderStepKeepsClean(s, step);
    } else if OfProcess(step) {
      ProcessStepKeepsClean(s, step);
    } else {
      OthersKeepLives(s, step);
    }
  }

  lemma {:induction false} BehaviourClean(states: seq<State>, steps: seq<Step>, i: nat)
    requires Behaviour(states, steps) && i < |states|
    ensures Clean(states[i])
  {
    if i > 0 {
      BehaviourClean(states, steps, i - 1);
      assert StepAt(states, steps, i - 1);
      StepKeepsClean(states[i - 1], steps[i - 1]);
    }
  }

  /** What os.ReadFile gives; any read may fail. */
  function FileText(s: State, pid: int, stdout: bool, readable: bool): FileRead {
    if !readable then Unreadable
    else if (pid, stdout) in s.files then Data(Written(s.files[(pid, stdout)]))
    else Missing
  }

  /** The result of readLogFile, which `ReadLogFile` computes. */
  function LogText(s: State, pid: int, stdout: bool, head: int, tail: int, readable: bool): ReadResult {
    match FileText(s, pid, stdout, readable)
    case Data(content) => Text(Limited(content, head, tail))
    case Missing => Text("")
    case Unreadable => ReadError
  }

  /** `ReadFailed` is the internal error. */
  datatype LogsResult =
    | NoSuchPid
    | BothLimits
    | ReadFailed(stdout: bool)
    | Contents(stdoutText: string, stderrText: string)

  /** The pid is looked up in `s0`, and the two files are read later, in `s1` and `s2`, if they can be read. */
  function Logs(s0: State, s1: State, s2: State, pid: int, head: int, tail: int,
                outReadable: bool, errReadable: bool): LogsResult {
    if pid !in s0.store.registry then NoSuchPid
    else if head > 0 && tail > 0 then BothLimits
    else
      match LogText(s1, pid, true, head, tail, outReadable)
      case ReadError => ReadFailed(true)
      case Text(out) =>
        match LogText(s2, pid, false, head, tail, errReadable)
        case ReadError => ReadFailed(false)
        case Text(err) => Contents(out, err)
  }

  /** The text of a limited read in terms of lines. */
  function LinesShown(log: seq<string>, head: int, tail: int): string {
    if log == [] then ""
    else if head > 0 then Written(First(Countable(log), head))
    else if tail > 0 then Written(Last(Countable(log), tail))
    else Written(log)
  }

  /** `text` shows the logged lines of the process that is registered under the pid; or nothing, if a later
      Start is reusing the pid already. The logged lines are the live stream with at most one line in
      flight, and exactly the live stream once the process is marked exited. */
  predicate Shows(s: State, pid: int, stdout: bool, head: int, tail: int, text: string)
    requires Shape(s) && pid in s.store.registry
  {
    var p := s.store.registry[pid];
    var log, live := s.lives[p].At(stdout).log, Lines(s.lives[p].fan, stdout);
    && live <= log && |log| <= |live| + 1
    && (s.store.procs[p].status.Exited? ==> log == live)
    && (text == LinesShown(log, head, tail) || (text == "" && !OwnsFiles(s, p)))
  }

  lemma LogTextShows(states: seq<State>, steps: seq<Step>, i: nat, pid: int, stdout: bool, head: int, tail: int)
    requires Behaviour(states, steps) && i < |states| && Shape(states[i]) && pid in states[i].store.registry
    ensures var r := LogText(states[i], pid, stdout, head, tail, true);
      r.Text? && Shows(states[i], pid, stdout, head, tail, r.text)
  {
    var p := states[i].store.registry[pid];
    BehaviourInv(states, steps, i);
    assert states[i].store.procs[p].pid == pid;
    LogFileIsTheLog(states, steps, i, p, stdout);
    LogMatchesLive(states, steps, i, p, stdout);
    BehaviourClean(states, steps, i);
    var log := states[i].lives[p].At(stdout).log;
    assert NewlineFree(log);
    if log != [] {
      LimitedIsFirstOrLast(log, head, tail);
    }
  }

  lemma {:induction false} PidStaysInRun(states: seq<State>, steps: seq<Step>, i: nat, j: nat, pid: int)
    requires Behaviour(states, steps) && i <= j < |states| && pid in states[i].store.registry
    ensures pid in states[j].store.registry
    decreases j
  {
    if i < j {
      PidStaysInRun(states, steps, i, j - 1, pid);
      assert StepAt(states, steps, j - 1);
      BehaviourInv(states, steps, j - 1);
      StepFrames(states[j - 1], steps[j - 1]);
      assert EntryFrame(states[j - 1], states[j], pid);
    }
  }

  /** Logs refuses an unknown pid and two limits at once, and fails at the first file that cannot be read.
      Otherwise each of the two texts shows the logged lines, all of them or the first or last n countable
      ones, as of the moment its file was read. */
  lemma LogsReturnTheStream(states: seq<State>, steps: seq<Step>, i: nat, j: nat, k: nat,
                            pid: int, head: int, tail: int, outReadable: bool, errReadable: bool)
    requires Behaviour(states, steps) && i <= j <= k < |states|
    ensures var r := Logs(states[i], states[j], states[k], pid, head, tail, outReadable, errReadable);
      var allowed := pid in states[i].store.registry && !(head > 0 && tail > 0);
      && (r.NoSuchPid? <==> pid !in states[i].store.registry)
      && (r.BothLimits? <==> pid in states[i].store.registry && head > 0 && tail > 0)
      && (r == ReadFailed(true) <==> allowed && !outReadable)
      && (r == ReadFailed(false) <==> allowed && outReadable && !errReadable)
      && (r.Contents? <==> allowed && outReadable && errReadable)
      && (r.Contents? ==>
            && Shape(states[j]) && pid in states[j].store.registry
            && Shape(states[k]) && pid in states[k].store.registry
            && Shows(states[j], pid, true, head, tail, r.stdoutText)
            && Shows(states[k], pid, false, head, tail, r.stderrText))
  {
    if pid in states[i].store.registry {
      PidStaysInRun(states, steps, i, j, pid);
      PidStaysInRun(states, steps, j, k, pid);
      BehaviourInv(states, steps, j);
      BehaviourInv(states, steps, k);
      LogTextShows(states, steps, j, pid, true, head, tail);
      LogTextShows(states, steps, k, pid, false, head, tail);
    }
  }
}
