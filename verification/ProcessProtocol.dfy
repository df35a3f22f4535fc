/** worker/process.go as a state machine: any number of processes, each with two pipe readers and a
    waiter, and any number of concurrent Start, Tail, Stop and StopAll calls. One step is one
    critical section of `pm.mu`, one log write, one channel operation, one signal or one call back
    to the client. Histories (`fan`, `received`, `dropped`, `sent`, ...) only record what happened. */
module ProcessProtocol {
  import opened Basics
  import opened ProcessStore

  // ---- goroutine states ----

  /** pipeReader: waiting in Scan, line in hand, line logged but not yet fanned out, returned. */
  datatype ReaderPc = Scanning | Writing(line: string) | Sending(line: string) | Finished

  /** `log` lists the lines this reader has written to its log file. */
  datatype Reader = Reader(pc: ReaderPc, log: seq<string>)

  /** waitForExit: in pipeWg.Wait or cmd.Wait, cmd.Wait returned, critical section over, done closed. */
  datatype WaiterPc = Waiting | HasWaited(code: int) | HasMarked(code: int) | WaiterDone(code: int)

  /** `fan`: every event fanned out for the process, in the order of the critical sections. */
  datatype Life = Life(out: Reader, err: Reader, fan: seq<TailEvent>, waiter: WaiterPc) {
    predicate Reaped() { !waiter.Waiting? }
    function At(stdout: bool): Reader { if stdout then out else err }
    function Put(stdout: bool, r: Reader): Life { if stdout then this.(out := r) else this.(err := r) }
  }

  /** A Start call between cmd.Start and the registration. */
  datatype StartPc = NeedStdoutLog | NeedStderrLog | NeedRegister

  datatype WaitResult = WaitOk | WaitExitError(code: int) | WaitOtherError

  datatype TailMsg = LineMsg(event: TailEvent) | ExitMsg(code: int)

  /** Tail ignores whether the exit event could be sent (`ok`). */
  datatype TailOutcome = Cancelled | SendFailed | ExitSent(code: int, ok: bool)

  datatype TailPc =
    | Selecting
    | Holding(event: TailEvent)
    | SawClose
    | HasCode(code: int, fellBack: bool)
    | Leaving(outcome: TailOutcome)
    | Left(outcome: TailOutcome)

  /** One registered Tail call; its number is its channel's number. `start` is the length of the
      process's fan-out history at registration. */
  datatype Tail = Tail(proc: nat, start: nat, received: seq<TailEvent>, dropped: nat, receives: nat,
                       sent: seq<TailMsg>, pc: TailPc)

  datatype StopResult = Stopped | UnknownPid | HadExited | KillFailed

  datatype StopPc = SendingTerm | InGrace | SendingKill | AwaitingDone | StopReturned(result: StopResult)

  datatype StopCall = StopCall(pid: int, proc: Option<nat>, pc: StopPc)

  /** `snapshot[i]` is the process registered under `pids[i]` when StopAll took its list;
      `calls[i]` is the Stop call that the goroutine for `pids[i]` has begun. */
  datatype StopAllCall = StopAllCall(pids: seq<int>, snapshot: seq<nat>, calls: seq<Option<nat>>, returned: bool)

  /** `osPids`: pids the operating system has not released. `files`: the log files, by pid and
      stream, as the lines written since the last os.Create. */
  datatype State = State(
    store: Store,
    lives: seq<Life>,
    tails: seq<Tail>,
    stops: seq<StopCall>,
    stopAlls: seq<StopAllCall>,
    starting: map<int, StartPc>,
    osPids: set<int>,
    files: map<(int, bool), seq<string>>)

  const INIT: State := State(Store(map[], [], [], false), [], [], [], [], map[], {}, map[])

  datatype Step =
    | Launch(pid: int)
    | CreateStdoutLog(pid: int, ok: bool)
    | CreateStderrLog(pid: int, ok: bool)
    | RegisterProc(pid: int)
    | Scan(p: nat, stdout: bool, line: string)
    | WriteLog(p: nat, stdout: bool)
    | FanOutLine(p: nat, stdout: bool)
    | EndOfPipe(p: nat, stdout: bool)
    | Reap(p: nat, wait: WaitResult)
    | MarkProcExited(p: nat)
    | CloseProcDone(p: nat)
    | CallTail(pid: int)
    | CancelTail(c: nat)
    | ReceiveEvent(c: nat)
    | SendLine(c: nat, ok: bool)
    | ReadExitCode(c: nat)
    | SendExit(c: nat, ok: bool)
    | Unsubscribe(c: nat)
    | CallStop(pid: int)
    | SendTerm(k: nat, ok: bool)
    | GraceOver(k: nat)
    | SendKill(k: nat, ok: bool)
    | SeeDone(k: nat)
    | SnapshotAll(pids: seq<int>)
    | StopOne(a: nat, i: nat)
    | JoinAll(a: nat)

  predicate OfStart(step: Step) {
    step.Launch? || step.CreateStdoutLog? || step.CreateStderrLog? || step.RegisterProc?
  }

  predicate OfReader(step: Step) {
    step.Scan? || step.WriteLog? || step.FanOutLine? || step.EndOfPipe?
  }

  predicate OfWaiter(step: Step) {
    step.Reap? || step.MarkProcExited? || step.CloseProcDone?
  }

  predicate OfTail(step: Step) {
    OwnStep(step) || step.CallTail? || step.Unsubscribe?
  }

  /** The steps of a registered Tail, deregistration aside. */
  predicate OwnStep(step: Step) {
    step.CancelTail? || step.ReceiveEvent? || step.SendLine? || step.ReadExitCode? || step.SendExit?
  }

  predicate OfStop(step: Step) {
    || step.CallStop? || step.SendTerm? || step.GraceOver? || step.SendKill? || step.SeeDone?
    || step.SnapshotAll? || step.StopOne? || step.JoinAll?
  }

  // ---- shape: all the numbers refer to something ----

  predicate Shape(s: State) {
    && StoreShape(s.store)
    && |s.lives| == |s.store.procs|
    && |s.tails| == |s.store.chans|
    && (forall c :: 0 <= c < |s.tails| ==> s.tails[c].proc < |s.lives|)
    && (forall k :: 0 <= k < |s.stops| ==> s.stops[k].proc.Some? ==> s.stops[k].proc.value < |s.lives|)
    && (forall a :: 0 <= a < |s.stopAlls| ==> StopAllShape(s.stopAlls[a], |s.lives|, |s.stops|))
  }

  predicate StopAllShape(a: StopAllCall, procs: nat, stops: nat) {
    && |a.snapshot| == |a.pids| == |a.calls|
    && InRange(a.snapshot, procs)
    && forall i :: 0 <= i < |a.calls| ==> a.calls[i].Some? ==> a.calls[i].value < stops
  }

  // ---- enabledness ----

  predicate IsSnapshot(st: Store, pids: seq<int>)
    requires StoreShape(st)
  {
    && Distinct(pids)
    && (forall pid :: pid in pids ==> pid in st.registry && st.procs[st.registry[pid]].status.Running?)
    && (forall pid :: pid in st.registry ==> st.procs[st.registry[pid]].status.Running? ==> pid in pids)
  }

  predicate Enabled(s: State, step: Step)
    requires Shape(s)
  {
    match step
    // A pid is not handed out again before cmd.Wait has returned for it.
    case Launch(pid) => pid !in s.osPids && pid !in s.starting
    case CreateStdoutLog(pid, ok) => pid in s.starting && s.starting[pid].NeedStdoutLog?
    case CreateStderrLog(pid, ok) => pid in s.starting && s.starting[pid].NeedStderrLog?
    case RegisterProc(pid) => pid in s.starting && s.starting[pid].NeedRegister?
    // bufio.ScanLines never yields a newline inside a line.
    case Scan(p, b, line) => p < |s.lives| && s.lives[p].At(b).pc.Scanning? && '\n' !in line
    case WriteLog(p, b) => p < |s.lives| && s.lives[p].At(b).pc.Writing?
    case FanOutLine(p, b) => p < |s.lives| && s.lives[p].At(b).pc.Sending?
    case EndOfPipe(p, b) => p < |s.lives| && s.lives[p].At(b).pc.Scanning?
    case Reap(p, wait) =>
      p < |s.lives| && s.lives[p].waiter.Waiting? && s.lives[p].out.pc.Finished? && s.lives[p].err.pc.Finished?
    case MarkProcExited(p) => p < |s.lives| && s.lives[p].waiter.HasWaited?
    case CloseProcDone(p) => p < |s.lives| && s.lives[p].waiter.HasMarked?
    case CallTail(pid) => true
    case CancelTail(c) => c < |s.tails| && s.tails[c].pc.Selecting?
    case ReceiveEvent(c) =>
      c < |s.tails| && s.tails[c].pc.Selecting? && (s.store.chans[c].buf != [] || s.store.chans[c].closed)
    case SendLine(c, ok) => c < |s.tails| && s.tails[c].pc.Holding?
    case ReadExitCode(c) => c < |s.tails| && s.tails[c].pc.SawClose?
    case SendExit(c, ok) => c < |s.tails| && s.tails[c].pc.HasCode?
    case Unsubscribe(c) => c < |s.tails| && s.tails[c].pc.Leaving?
    case CallStop(pid) => true
    case SendTerm(k, ok) => k < |s.stops| && s.stops[k].pc.SendingTerm?
    case GraceOver(k) => k < |s.stops| && s.stops[k].pc.InGrace?
    case SendKill(k, ok) => k < |s.stops| && s.stops[k].pc.SendingKill?
    case SeeDone(k) =>
      && k < |s.stops| && (s.stops[k].pc.InGrace? || s.stops[k].pc.AwaitingDone?)
      && s.stops[k].proc.Some? && s.store.procs[s.stops[k].proc.value].done
    case SnapshotAll(pids) => IsSnapshot(s.store, pids)
    case StopOne(a, i) => a < |s.stopAlls| && i < |s.stopAlls[a].calls| && s.stopAlls[a].calls[i].None?
    case JoinAll(a) =>
      && a < |s.stopAlls| && !s.stopAlls[a].returned
      && forall i :: 0 <= i < |s.stopAlls[a].calls| ==>
           s.stopAlls[a].calls[i].Some? && s.stops[s.stopAlls[a].calls[i].value].pc.StopReturned?
  }

  // ---- effects ----

  function WithReader(s: State, p: nat, b: bool, r: Reader): State
    requires p < |s.lives|
  {
    s.(lives := s.lives[p := s.lives[p].Put(b, r)])
  }

  function WithTail(s: State, c: nat, t: Tail): State
    requires c < |s.tails|
  {
    s.(tails := s.tails[c := t])
  }

  function WithStop(s: State, k: nat, pc: StopPc): State
    requires k < |s.stops|
  {
    s.(stops := s.stops[k := s.stops[k].(pc := pc)])
  }

  function WithoutKey<T>(m: map<int, T>, key: int): map<int, T> {
    map k | k in m && k != key :: m[k]
  }

  function DoCreateLog(s: State, pid: int, b: bool, ok: bool, next: StartPc): State {
    if ok then s.(files := s.files[(pid, b) := []], starting := s.starting[pid := next])
    // The process is killed but never waited for: its pid stays taken.
    else s.(starting := WithoutKey(s.starting, pid))
  }

  function DoRegister(s: State, pid: int): State {
    s.(store := Register(s.store, pid),
       lives := s.lives + [Life(Reader(Scanning, []), Reader(Scanning, []), [], Waiting)],
       starting := WithoutKey(s.starting, pid))
  }

  function DoWriteLog(s: State, p: nat, b: bool): State
    requires Shape(s) && p < |s.lives| && s.lives[p].At(b).pc.Writing?
  {
    var r := s.lives[p].At(b);
    var key := (s.store.procs[p].pid, b);
    WithReader(s, p, b, Reader(Sending(r.pc.line), r.log + [r.pc.line]))
      .(files := s.files[key := (if key in s.files then s.files[key] else []) + [r.pc.line]])
  }

  /** The subscribers that the fan-out finds with a full buffer lose the event. */
  function CountDrops(s: State, p: nat): (r: seq<Tail>)
    requires Shape(s) && p < |s.lives|
    ensures |r| == |s.tails|
    ensures forall c :: 0 <= c < |r| ==>
      r[c] == if c in s.store.procs[p].subs && |s.store.chans[c].buf| >= SUBSCRIBER_SLOTS
              then s.tails[c].(dropped := s.tails[c].dropped + 1) else s.tails[c]
  {
    seq(|s.tails|, c requires 0 <= c < |s.tails| =>
      if c in s.store.procs[p].subs && |s.store.chans[c].buf| >= SUBSCRIBER_SLOTS
      then s.tails[c].(dropped := s.tails[c].dropped + 1) else s.tails[c])
  }

  function DoFanOut(s: State, p: nat, b: bool): State
    requires Shape(s) && p < |s.lives| && s.lives[p].At(b).pc.Sending?
  {
    var r := s.lives[p].At(b);
    var e := TailEvent(b, r.pc.line);
    var life := s.lives[p].Put(b, r.(pc := Scanning));
    s.(store := FanOut(s.store, p, e),
       lives := s.lives[p := life.(fan := life.fan + [e])],
       tails := CountDrops(s, p))
  }

  function ExitCodeOf(wait: WaitResult): int {
    match wait
    case WaitOk => 0
    case WaitExitError(code) => code
    case WaitOtherError => 1
  }

  function DoReap(s: State, p: nat, wait: WaitResult): State
    requires Shape(s) && p < |s.lives|
  {
    s.(lives := s.lives[p := s.lives[p].(waiter := HasWaited(ExitCodeOf(wait)))],
       osPids := s.osPids - {s.store.procs[p].pid})
  }

  function DoMarkExited(s: State, p: nat): State
    requires Shape(s) && p < |s.lives| && s.lives[p].waiter.HasWaited?
  {
    var code := s.lives[p].waiter.code;
    s.(store := MarkExited(s.store, p, code),
       lives := s.lives[p := s.lives[p].(waiter := HasMarked(code))])
  }

  function DoCloseDone(s: State, p: nat): State
    requires Shape(s) && p < |s.lives| && s.lives[p].waiter.HasMarked?
  {
    s.(store := CloseDone(s.store, p),
       lives := s.lives[p := s.lives[p].(waiter := WaiterDone(s.lives[p].waiter.code))])
  }

  function DoCallTail(s: State, pid: int): State
    requires Shape(s)
  {
    match Find(s.store, pid)
    case NotFound => s
    case AlreadyExited(_) => s
    case Live(p) =>
      s.(store := Subscribe(s.store, p),
         tails := s.tails + [Tail(p, |s.lives[p].fan|, [], 0, 0, [], Selecting)])
  }

  /** A Tail after a step of its own, with the events buffered for it and the exit code of its process. */
  function NextTail(t: Tail, buf: seq<TailEvent>, exitCode: Option<int>, step: Step): Tail
    requires OwnStep(step) && (step.SendLine? ==> t.pc.Holding?) && (step.SendExit? ==> t.pc.HasCode?)
  {
    match step
    case CancelTail(_) => t.(pc := Leaving(Cancelled))
    case ReceiveEvent(_) =>
      if buf != [] then t.(received := t.received + [buf[0]], receives := t.receives + 1, pc := Holding(buf[0]))
      else t.(receives := t.receives + 1, pc := SawClose)
    case SendLine(_, ok) =>
      if ok then t.(sent := t.sent + [LineMsg(t.pc.event)], pc := Selecting) else t.(pc := Leaving(SendFailed))
    case ReadExitCode(_) =>
      t.(pc := if exitCode.Some? then HasCode(exitCode.value, false) else HasCode(0, true))
    case SendExit(_, ok) =>
      t.(sent := if ok then t.sent + [ExitMsg(t.pc.code)] else t.sent, pc := Leaving(ExitSent(t.pc.code, ok)))
  }

  function NextBuf(buf: seq<TailEvent>, step: Step): seq<TailEvent> {
    if step.ReceiveEvent? && buf != [] then buf[1..] else buf
  }

  function DoOwnStep(s: State, step: Step): State
    requires Shape(s) && OwnStep(step) && Enabled(s, step)
  {
    var c := step.c;
    var t, ch := s.tails[c], s.store.chans[c];
    WithTail(s, c, NextTail(t, ch.buf, s.store.procs[t.proc].exitCode, step))
      .(store := s.store.(chans := s.store.chans[c := ch.(buf := NextBuf(ch.buf, step))]))
  }

  function DoUnsubscribe(s: State, c: nat): State
    requires Shape(s) && c < |s.tails| && s.tails[c].pc.Leaving?
  {
    var t := s.tails[c];
    WithTail(s, c, t.(pc := Left(t.pc.outcome)))
      .(store := RemoveSubscriber(s.store, s.store.procs[t.proc].pid, c))
  }

  function BeginStop(st: Store, pid: int): StopCall
    requires StoreShape(st)
  {
    match Find(st, pid)
    case NotFound => StopCall(pid, None, StopReturned(UnknownPid))
    case AlreadyExited(p) => StopCall(pid, Some(p), StopReturned(HadExited))
    case Live(p) => StopCall(pid, Some(p), SendingTerm)
  }

  function Registered(st: Store, pids: seq<int>): (r: seq<nat>)
    requires forall i :: 0 <= i < |pids| ==> pids[i] in st.registry
    ensures |r| == |pids| && forall i :: 0 <= i < |pids| ==> r[i] == st.registry[pids[i]]
  {
    seq(|pids|, i requires 0 <= i < |pids| => st.registry[pids[i]])
  }

  function DoSnapshotAll(s: State, pids: seq<int>): State
    requires Shape(s) && IsSnapshot(s.store, pids)
  {
    assert forall i :: 0 <= i < |pids| ==> pids[i] in pids;
    assert forall pid :: pid in pids ==> pid in s.store.registry;
    s.(stopAlls := s.stopAlls + [StopAllCall(pids, Registered(s.store, pids), seq(|pids|, _ => None), false)])
  }

  function DoStopOne(s: State, a: nat, i: nat): State
    requires Shape(s) && a < |s.stopAlls| && i < |s.stopAlls[a].calls|
  {
    var call := s.stopAlls[a];
    s.(stops := s.stops + [BeginStop(s.store, call.pids[i])],
       stopAlls := s.stopAlls[a := call.(calls := call.calls[i := Some(|s.stops|)])])
  }

  function Apply(s: State, step: Step): State
    requires Shape(s) && Enabled(s, step)
  {
    match step
    case Launch(pid) => s.(osPids := s.osPids + {pid}, starting := s.starting[pid := NeedStdoutLog])
    case CreateStdoutLog(pid, ok) => DoCreateLog(s, pid, true, ok, NeedStderrLog)
    case CreateStderrLog(pid, ok) => DoCreateLog(s, pid, false, ok, NeedRegister)
    case RegisterProc(pid) => DoRegister(s, pid)
    case Scan(p, b, line) => WithReader(s, p, b, s.lives[p].At(b).(pc := Writing(line)))
    case WriteLog(p, b) => DoWriteLog(s, p, b)
    case FanOutLine(p, b) => DoFanOut(s, p, b)
    case EndOfPipe(p, b) => WithReader(s, p, b, s.lives[p].At(b).(pc := Finished))
    case Reap(p, wait) => DoReap(s, p, wait)
    case MarkProcExited(p) => DoMarkExited(s, p)
    case CloseProcDone(p) => DoCloseDone(s, p)
    case CallTail(pid) => DoCallTail(s, pid)
    case CancelTail(c) => DoOwnStep(s, step)
    case ReceiveEvent(c) => DoOwnStep(s, step)
    case SendLine(c, ok) => DoOwnStep(s, step)
    case ReadExitCode(c) => DoOwnStep(s, step)
    case SendExit(c, ok) => DoOwnStep(s, step)
    case Unsubscribe(c) => DoUnsubscribe(s, c)
    case CallStop(pid) => s.(stops := s.stops + [BeginStop(s.store, pid)])
    case SendTerm(k, ok) => WithStop(s, k, if ok then InGrace else StopReturned(KillFailed))
    case GraceOver(k) => WithStop(s, k, SendingKill)
    case SendKill(k, ok) => WithStop(s, k, if ok then AwaitingDone else StopReturned(KillFailed))
    case SeeDone(k) => WithStop(s, k, StopReturned(Stopped))
    case SnapshotAll(pids) => DoSnapshotAll(s, pids)
    case StopOne(a, i) => DoStopOne(s, a, i)
    case JoinAll(a) => s.(stopAlls := s.stopAlls[a := s.stopAlls[a].(returned := true)])
  }

  /** The lines of one stream in a fan-out history. */
  function Lines(fan: seq<TailEvent>, stdout: bool): seq<string> {
    if fan == [] then []
    else
      var front := Lines(fan[..|fan| - 1], stdout);
      var e := fan[|fan| - 1];
      if e.stdout == stdout then front + [e.line] else front
  }
}
