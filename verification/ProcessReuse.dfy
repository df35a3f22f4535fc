/** Where a reused pid shows: a run in which StopAll returns although a process that was running when
    it took its list is not marked exited yet, and one in which a process keeps the channel of a Tail
    that has returned. */
module ProcessReuse {
  import opened Basics
  import opened ProcessStore
  import opened ProcessProtocol
  import opened ProcessInvariant
  import opened ProcessTheorems

  const PID: int := 7
  const IDLE: Reader := Reader(Finished, [])
  const FRESH: Life := Life(Reader(Scanning, []), Reader(Scanning, []), [], Waiting)
  const RUNNING: Proc := Proc(PID, Running, None, [], false)
  const FILES: map<(int, bool), seq<string>> := map[(PID, true) := [], (PID, false) := []]

  /** Start, all the way, from a state in which the pid is free. */
  lemma StartOne(states: seq<State>, steps: seq<Step>) returns (states': seq<State>, steps': seq<Step>)
    requires Behaviour(states, steps) && Shape(states[|steps|])
    requires PID !in states[|steps|].osPids && states[|steps|].starting == map[]
    requires states[|steps|].files == map[] || states[|steps|].files == FILES
    ensures Behaviour(states', steps') && Shape(states'[|steps'|])
    ensures var s := states[|steps|];
      states'[|steps'|] == s.(store := Register(s.store, PID), lives := s.lives + [FRESH],
                              osPids := s.osPids + {PID}, files := FILES)
  {
    var s := states[|steps|];
    states', steps' := Extend(states, steps, Launch(PID));
    states', steps' := Extend(states', steps', CreateStdoutLog(PID, true));
    states', steps' := Extend(states', steps', CreateStderrLog(PID, true));
    assert states'[|steps'|].files == FILES;
    states', steps' := Extend(states', steps', RegisterProc(PID));
    assert states'[|steps'|].starting == map[];
  }

  /** The kernel side of an exit: both pipes end and cmd.Wait returns. */
  lemma ReapOne(states: seq<State>, steps: seq<Step>, p: nat) returns (states': seq<State>, steps': seq<Step>)
    requires Behaviour(states, steps) && Shape(states[|steps|])
    requires p < |states[|steps|].lives| && states[|steps|].lives[p] == FRESH
    requires states[|steps|].store.procs[p].pid == PID
    ensures Behaviour(states', steps') && Shape(states'[|steps'|])
    ensures var s := states[|steps|];
      states'[|steps'|] == s.(lives := s.lives[p := Life(IDLE, IDLE, [], HasWaited(0))], osPids := s.osPids - {PID})
  {
    states', steps' := Extend(states, steps, EndOfPipe(p, true));
    states', steps' := Extend(states', steps', EndOfPipe(p, false));
    states', steps' := Extend(states', steps', Reap(p, WaitOk));
  }

  lemma FirstStartAndSnapshot() returns (states: seq<State>, steps: seq<Step>)
    ensures Behaviour(states, steps) && Shape(states[|steps|])
    ensures states[|steps|] == State(Store(map[PID := 0], [RUNNING], [], false), [FRESH], [], [],
                                     [StopAllCall([PID], [0], [None], false)], map[], {PID}, FILES)
  {
    states, steps := [INIT], [];
    states, steps := StartOne(states, steps);
    assert Enabled(states[|steps|], SnapshotAll([PID]));
    states, steps := Extend(states, steps, SnapshotAll([PID]));
    var call := states[|steps|].stopAlls[0];
    assert call.snapshot == [0] && call.calls == [None];
    assert states[|steps|].stopAlls == [call];
  }

  lemma ReuseAndStop() returns (states: seq<State>, steps: seq<Step>)
    ensures Behaviour(states, steps) && Shape(states[|steps|])
    ensures states[|steps|] ==
      State(Store(map[PID := 1], [RUNNING, RUNNING], [], false),
            [Life(IDLE, IDLE, [], HasWaited(0)), FRESH], [], [StopCall(PID, Some(1), SendingTerm)],
            [StopAllCall([PID], [0], [Some(0)], false)], map[], {PID}, FILES)
  {
    states, steps := FirstStartAndSnapshot();
    states, steps := ReapOne(states, steps, 0);
    states, steps := StartOne(states, steps);
    states, steps := Extend(states, steps, StopOne(0, 0));
    var call := states[|steps|].stopAlls[0];
    assert call.calls == [Some(0)];
    assert states[|steps|].stopAlls == [call];
  }

  lemma SecondExits() returns (states: seq<State>, steps: seq<Step>)
    ensures Behaviour(states, steps) && Shape(states[|steps|])
    ensures states[|steps|] ==
      State(Store(map[PID := 1], [RUNNING, Proc(PID, Exited, Some(0), [], true)], [], false),
            [Life(IDLE, IDLE, [], HasWaited(0)), Life(IDLE, IDLE, [], WaiterDone(0))], [],
            [StopCall(PID, Some(1), SendingTerm)],
            [StopAllCall([PID], [0], [Some(0)], false)], map[], {}, FILES)
  {
    states, steps := ReuseAndStop();
    states, steps := ReapOne(states, steps, 1);
    states, steps := Extend(states, steps, MarkProcExited(1));
    states, steps := Extend(states, steps, CloseProcDone(1));
  }

  lemma FirstSubscriber()
    ensures var s := State(Store(map[PID := 0], [RUNNING], [], false), [FRESH], [], [], [], map[], {PID}, FILES);
      && Shape(s)
      && DoCallTail(s, PID) ==
           State(Store(map[PID := 0], [RUNNING.(subs := [0])], [Chan([], false)], false), [FRESH],
                 [Tail(0, 0, [], 0, 0, [], Selecting)], [], [], map[], {PID}, FILES)
  {
    assert RUNNING.subs + [0] == [0];
    var procs := [RUNNING];
    assert procs[0 := RUNNING.(subs := [0])] == [RUNNING.(subs := [0])];
  }

  /** A Tail, cancelled and about to deregister, whose process has been reaped meanwhile. */
  lemma TailOutlivesProcess() returns (states: seq<State>, steps: seq<Step>)
    ensures Behaviour(states, steps) && Shape(states[|steps|])
    ensures states[|steps|] ==
      State(Store(map[PID := 0], [RUNNING.(subs := [0])], [Chan([], false)], false),
            [Life(IDLE, IDLE, [], HasWaited(0))], [Tail(0, 0, [], 0, 0, [], Leaving(Cancelled))], [], [],
            map[], {}, FILES)
  {
    states, steps := [INIT], [];
    states, steps := StartOne(states, steps);
    assert states[|steps|]
      == State(Store(map[PID := 0], [RUNNING], [], false), [FRESH], [], [], [], map[], {PID}, FILES);
    states, steps := Extend(states, steps, CallTail(PID));
    FirstSubscriber();
    states, steps := Extend(states, steps, CancelTail(0));
    assert states[|steps|] ==
      State(Store(map[PID := 0], [RUNNING.(subs := [0])], [Chan([], false)], false), [FRESH],
            [Tail(0, 0, [], 0, 0, [], Leaving(Cancelled))], [], [], map[], {PID}, FILES);
    states, steps := ReapOne(states, steps, 0);
  }

  /** removeSubscriber looks the pid up and finds the younger process: the older one keeps the channel of
      the Tail that has returned. `UnsubscribeRemovesIff` has the exact condition. */
  lemma ReturnedTailCanStayListed() returns (states: seq<State>, steps: seq<Step>)
    ensures Behaviour(states, steps) && Shape(states[|steps|])
    ensures var s := states[|steps|];
      && s.tails == [Tail(0, 0, [], 0, 0, [], Left(Cancelled))]
      && s.store.procs == [RUNNING.(subs := [0]), RUNNING] && s.store.registry == map[PID := 1]
  {
    states, steps := TailOutlivesProcess();
    states, steps := StartOne(states, steps);
    states, steps := Extend(states, steps, Unsubscribe(0));
  }

  /** StopAll has returned and no signal failed, yet the process it saw running is still "running": the
      Stop call for its pid found, and waited for, the process that had taken the pid over. By
      `StopAllMeansStopped` the older process is at least reaped; `StopAllMissesIff` has the condition. */
  lemma StopAllCanMissTheExit() returns (states: seq<State>, steps: seq<Step>)
    ensures Behaviour(states, steps) && Shape(states[|steps|])
    ensures var s := states[|steps|];
      && s.stopAlls == [StopAllCall([PID], [0], [Some(0)], true)]
      && s.stops == [StopCall(PID, Some(1), StopReturned(Stopped))]
      && s.store.procs == [RUNNING, Proc(PID, Exited, Some(0), [], true)]
  {
    states, steps := SecondExits();
    states, steps := Extend(states, steps, SendTerm(0, true));
    states, steps := Extend(states, steps, SeeDone(0));
    states, steps := Extend(states, steps, JoinAll(0));
  }
}
