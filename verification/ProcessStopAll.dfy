/** Exactly when a goroutine of StopAll can miss the exit of the process that StopAll saw running: when
    its lookup finds a younger process under the pid and the older one is not marked exited yet. */
module ProcessStopAll {
  import opened Basics
  import opened ProcessStore
  import opened ProcessProtocol
  import opened ProcessInvariant
  import opened ProcessFrame
  import opened ProcessTheorems

  /** The second run continues the first. */
  predicate Continues(states: seq<State>, steps: seq<Step>, states': seq<State>, steps': seq<Step>) {
    Behaviour(states', steps') && states <= states' && steps <= steps'
  }

  /** The goroutine for pid `n` of StopAll call `a` has not begun its Stop call yet. */
  predicate Pending(s: State, a: nat, n: nat) {
    Shape(s) && a < |s.stopAlls| && n < |s.stopAlls[a].calls| && s.stopAlls[a].calls[n].None?
  }

  /** Stop call `k` has found its process stopped, and yet `p` is not marked exited. */
  predicate MissedBy(s: State, k: nat, p: nat) {
    && Shape(s) && k < |s.stops| && p < |s.lives|
    && (s.stops[k].pc == StopReturned(Stopped) || s.stops[k].pc == StopReturned(HadExited))
    && s.store.procs[p].status.Running?
  }

  /** From the end of `states` on, the Stop call for `p` begins with the next step, and misses its exit. */
  predicate Misses(states: seq<State>, steps: seq<Step>, states': seq<State>, steps': seq<Step>, a: nat, n: nat, p: nat)
    requires |states| == |steps| + 1
  {
    && Continues(states, steps, states', steps')
    && |steps| < |steps'| && steps'[|steps|] == StopOne(a, n)
    && MissedBy(states'[|steps'|], |states[|steps|].stops|, p)
  }

  // ---- a Stop call keeps its process ----

  lemma StopsExtendTrans(a: seq<StopCall>, b: seq<StopCall>, c: seq<StopCall>)
    requires StopsExtend(a, b) && StopsExtend(b, c)
    ensures StopsExtend(a, c)
  {
  }

  lemma {:induction false} StopsExtendInRun(states: seq<State>, steps: seq<Step>, i: nat, j: nat)
    requires Behaviour(states, steps) && i <= j < |states|
    ensures StopsExtend(states[i].stops, states[j].stops)
    decreases j
  {
    if i < j {
      StopsExtendInRun(states, steps, i, j - 1);
      assert StepAt(states, steps, j - 1);
      BehaviourInv(states, steps, j - 1);
      StepFrames(states[j - 1], steps[j - 1]);
      StopsExtendTrans(states[i].stops, states[j - 1].stops, states[j].stops);
    }
  }

  /** If the lookup finds the process itself, or it is exited already, its exit cannot be missed. */
  lemma FoundIsNotMissed(states: seq<State>, steps: seq<Step>, states': seq<State>, steps': seq<Step>,
                         a: nat, n: nat, p: nat)
    requires Behaviour(states, steps) && Pending(states[|steps|], a, n) && p == states[|steps|].stopAlls[a].snapshot[n]
    requires Misses(states, steps, states', steps', a, n, p)
    ensures Replaced(states[|steps|], p) && states[|steps|].store.procs[p].status.Running?
  {
    var i, j := |steps|, |steps'|;
    var s := states[i];
    assert states'[i] == s && StepAt(states', steps', i);
    BehaviourInv(states', steps', i);
    assert StopAllOk(s, s.stopAlls[a]) && StopAllItemOk(s, s.stopAlls[a], n);
    var k := |s.stops|;
    assert states'[i + 1].stops[k] == BeginStop(s.store, s.stopAlls[a].pids[n]);
    StopsExtendInRun(states', steps', i + 1, j);
    StopMeansExited(states', steps', j, k);
    if s.store.procs[p].status.Exited? {
      NoLateTail(states', steps', i, j, p);
    }
  }

  // ---- the younger process can be stopped while the older one waits ----

  /** The step belongs to process `q`. */
  predicate StepOf(step: Step, q: nat) {
    (OfReader(step) || OfWaiter(step)) && step.p == q
  }

  /** Nothing happened but to process `q`. */
  predicate OnlyOf(s: State, s': State, q: nat) {
    && Shape(s) && Shape(s') && |s'.lives| == |s.lives| && s'.stops == s.stops
    && forall p :: 0 <= p < |s.lives| && p != q ==> s'.store.procs[p].status == s.store.procs[p].status
  }

  lemma StepOfKeeps(s: State, step: Step, q: nat)
    requires Inv(s) && Enabled(s, step) && StepOf(step, q)
    ensures OnlyOf(s, Apply(s, step), q)
  {
    StepKeepsInv(s, step);
    if step.FanOutLine? {
      FanOutFrame(s, q, step.stdout);
    } else if step.MarkProcExited? {
      MarkExitedFrame(s, q);
    } else {
      OtherStepOfKeeps(s, step, q);
    }
  }

  lemma OtherStepOfKeeps(s: State, step: Step, q: nat)
    requires Shape(s) && Enabled(s, step) && StepOf(step, q) && Shape(Apply(s, step))
    requires !step.FanOutLine? && !step.MarkProcExited?
    ensures OnlyOf(s, Apply(s, step), q)
  {
  }

  lemma ExtendOf(states: seq<State>, steps: seq<Step>, step: Step, q: nat)
    returns (states': seq<State>, steps': seq<Step>)
    requires Behaviour(states, steps) && Shape(states[|steps|]) && Enabled(states[|steps|], step) && StepOf(step, q)
    ensures Continues(states, steps, states', steps')
    ensures states'[|steps'|] == Apply(states[|steps|], step) && OnlyOf(states[|steps|], states'[|steps'|], q)
  {
    BehaviourInv(states, steps, |steps|);
    StepOfKeeps(states[|steps|], step, q);
    states', steps' := Extend(states, steps, step);
  }

  lemma ContinuesTrans(states: seq<State>, steps: seq<Step>, states1: seq<State>, steps1: seq<Step>,
                       states2: seq<State>, steps2: seq<Step>)
    requires Continues(states, steps, states1, steps1) && Continues(states1, steps1, states2, steps2)
    ensures Continues(states, steps, states2, steps2)
  {
  }

  /** The steps to the end of a reader and of a waiter, if no more lines come. */
  function ReaderSteps(r: Reader): nat {
    match r.pc
    case Writing(_) => 3
    case Sending(_) => 2
    case Scanning => 1
    case Finished => 0
  }

  function WaiterSteps(l: Life): nat {
    match l.waiter
    case Waiting => 3
    case HasWaited(_) => 2
    case HasMarked(_) => 1
    case WaiterDone(_) => 0
  }

  /** One reader of `q` runs to its end; the other and the waiter stay as they are. */
  predicate ReaderEnded(s: State, s': State, q: nat, b: bool) {
    && OnlyOf(s, s', q) && q < |s.lives|
    && s'.lives[q].At(b).pc.Finished? && s'.lives[q].At(!b) == s.lives[q].At(!b)
    && s'.lives[q].waiter == s.lives[q].waiter
  }

  lemma EndReader(states: seq<State>, steps: seq<Step>, q: nat, b: bool)
    returns (states': seq<State>, steps': seq<Step>)
    requires Behaviour(states, steps) && Shape(states[|steps|]) && q < |states[|steps|].lives|
    ensures Continues(states, steps, states', steps')
    ensures ReaderEnded(states[|steps|], states'[|steps'|], q, b)
    decreases ReaderSteps(states[|steps|].lives[q].At(b))
  {
    var s := states[|steps|];
    var pc := s.lives[q].At(b).pc;
    if pc.Finished? {
      states', steps' := states, steps;
    } else {
      var step := if pc.Writing? then WriteLog(q, b) else if pc.Sending? then FanOutLine(q, b) else EndOfPipe(q, b);
      var states1, steps1 := ExtendOf(states, steps, step, q);
      states', steps' := EndReader(states1, steps1, q, b);
      ContinuesTrans(states, steps, states1, steps1, states', steps');
    }
  }

  /** `q` is done, and nothing else has happened. */
  predicate Ended(s: State, s': State, q: nat) {
    OnlyOf(s, s', q) && q < |s.lives| && s'.store.procs[q].done
  }

  lemma EndWaiter(states: seq<State>, steps: seq<Step>, q: nat)
    returns (states': seq<State>, steps': seq<Step>)
    requires Behaviour(states, steps) && Shape(states[|steps|]) && q < |states[|steps|].lives|
    requires states[|steps|].lives[q].out.pc.Finished? && states[|steps|].lives[q].err.pc.Finished?
    ensures Continues(states, steps, states', steps') && Ended(states[|steps|], states'[|steps'|], q)
    decreases WaiterSteps(states[|steps|].lives[q])
  {
    var s := states[|steps|];
    BehaviourInv(states, steps, |steps|);
    assert LifeOk(s.store.procs[q], s.lives[q]);
    if s.lives[q].waiter.WaiterDone? {
      states', steps' := states, steps;
    } else {
      var step := match s.lives[q].waiter
        case Waiting => Reap(q, WaitOk)
        case HasWaited(_) => MarkProcExited(q)
        case _ => CloseProcDone(q);
      var states1, steps1 := ExtendOf(states, steps, step, q);
      states', steps' := EndWaiter(states1, steps1, q);
      ContinuesTrans(states, steps, states1, steps1, states', steps');
    }
  }

  /** From any state a process can be run to its end without any other goroutine taking a step. */
  lemma EndProcess(states: seq<State>, steps: seq<Step>, q: nat)
    returns (states': seq<State>, steps': seq<Step>)
    requires Behaviour(states, steps) && Shape(states[|steps|]) && q < |states[|steps|].lives|
    ensures Continues(states, steps, states', steps') && Ended(states[|steps|], states'[|steps'|], q)
  {
    var states1, steps1 := EndReader(states, steps, q, true);
    var states2, steps2 := EndReader(states1, steps1, q, false);
    ContinuesTrans(states, steps, states1, steps1, states2, steps2);
    states', steps' := EndWaiter(states2, steps2, q);
    ContinuesTrans(states, steps, states2, steps2, states', steps');
  }

  /** The Stop call returns once its process is done. */
  lemma ReturnStop(states: seq<State>, steps: seq<Step>, k: nat, p: nat)
    returns (states': seq<State>, steps': seq<Step>)
    requires Behaviour(states, steps) && Shape(states[|steps|])
    requires k < |states[|steps|].stops| && p < |states[|steps|].lives|
    requires var call := states[|steps|].stops[k];
      call.pc.SendingTerm? && call.proc.Some? && states[|steps|].store.procs[call.proc.value].done
    requires states[|steps|].store.procs[p].status.Running?
    ensures Continues(states, steps, states', steps') && MissedBy(states'[|steps'|], k, p)
  {
    var states1, steps1 := Extend(states, steps, SendTerm(k, true));
    states', steps' := Extend(states1, steps1, SeeDone(k));
    ContinuesTrans(states, steps, states1, steps1, states', steps');
  }

  lemma ReplacedIsMissed(states: seq<State>, steps: seq<Step>, a: nat, n: nat, p: nat)
    returns (states': seq<State>, steps': seq<Step>)
    requires Behaviour(states, steps) && Pending(states[|steps|], a, n) && p == states[|steps|].stopAlls[a].snapshot[n]
    requires Replaced(states[|steps|], p) && states[|steps|].store.procs[p].status.Running?
    ensures Misses(states, steps, states', steps', a, n, p)
  {
    var s := states[|steps|];
    BehaviourInv(states, steps, |steps|);
    assert StopAllOk(s, s.stopAlls[a]) && StopAllItemOk(s, s.stopAlls[a], n);
    var k, q := |s.stops|, s.store.registry[s.store.procs[p].pid];
    var states1, steps1 := Extend(states, steps, StopOne(a, n));
    assert states1[|steps1|].stops[k] == BeginStop(s.store, s.store.procs[p].pid);
    if s.store.procs[q].status.Exited? {
      states', steps' := states1, steps1;
    } else {
      var states2, steps2 := EndProcess(states1, steps1, q);
      ContinuesTrans(states, steps, states1, steps1, states2, steps2);
      states', steps' := ReturnStop(states2, steps2, k, p);
      ContinuesTrans(states, steps, states2, steps2, states', steps');
      ContinuesTrans(states1, steps1, states2, steps2, states', steps');
    }
    assert steps1 <= steps' && steps1[|steps|] == StopOne(a, n);
  }

  /** For each goroutine of StopAll, at the moment of its lookup: the exit of the process that StopAll saw
      running can be missed if and only if that process has been replaced in the registry before it was
      marked exited. */
  lemma StopAllMissesIff(states: seq<State>, steps: seq<Step>, a: nat, n: nat, p: nat)
    requires Behaviour(states, steps) && Pending(states[|steps|], a, n) && p == states[|steps|].stopAlls[a].snapshot[n]
    ensures (exists states', steps' :: Misses(states, steps, states', steps', a, n, p))
       <==> Replaced(states[|steps|], p) && states[|steps|].store.procs[p].status.Running?
  {
    if Replaced(states[|steps|], p) && states[|steps|].store.procs[p].status.Running? {
      var states', steps' := ReplacedIsMissed(states, steps, a, n, p);
    }
    forall states', steps' | Misses(states, steps, states', steps', a, n, p)
      ensures Replaced(states[|steps|], p) && states[|steps|].store.procs[p].status.Running?
    {
      FoundIsNotMissed(states, steps, states', steps', a, n, p);
    }
  }
}
