/** What a step leaves alone: the facts about one step from which the theorems about whole runs follow. */
module ProcessFrame {
  import opened Basics
  import opened ProcessStore
  import opened ProcessProtocol
  import opened ProcessInvariant

  /** A step of the goroutine of Tail `c`. */
  predicate IsTailStep(step: Step, c: nat) {
    OfTail(step) && !step.CallTail? && step.c == c
  }

  /** A process keeps its pid, never comes back to life, and gets no old channel back. */
  predicate ProcFrame(s: State, s': State, p: nat)
    requires p < |s.lives| == |s.store.procs| && |s.lives| <= |s'.lives| == |s'.store.procs|
  {
    var pr, pr' := s.store.procs[p], s'.store.procs[p];
    && pr'.pid == pr.pid
    && (pr.status.Exited? ==> pr'.status.Exited? && pr'.exitCode == pr.exitCode)
    && (s.lives[p].Reaped() ==> s'.lives[p].Reaped())
    && forall d :: d in pr'.subs && d < |s.tails| ==> d in pr.subs
  }

  /** A Tail and its channel: only a fan-out reaches another goroutine's Tail, and neither one whose process is
      exited, nor one that has left and is not listed any more or whose process is reaped. */
  predicate TailFrame(s: State, s': State, step: Step, c: nat)
    requires Shape(s) && c < |s.tails| <= |s'.tails| == |s'.store.chans|
  {
    var t, p := s.tails[c], s.tails[c].proc;
    && s'.tails[c].proc == p
    && (step.FanOutLine? || s'.tails[c].dropped == t.dropped)
    && (s'.tails[c].pc.Left? ==> t.pc.Left? || step == Unsubscribe(c))
    && (!IsTailStep(step, c) && s.store.procs[p].status.Exited? ==>
          s'.tails[c] == t && s'.store.chans[c] == s.store.chans[c])
    && (t.pc.Left? && (c !in s.store.procs[p].subs || s.lives[p].Reaped()) ==>
          s'.tails[c] == t && s'.store.chans[c].buf == s.store.chans[c].buf)
  }

  /** A new Tail belongs to a running process. */
  predicate NewTail(s: State, s': State, c: nat)
    requires Shape(s) && c < |s'.tails|
  {
    var p := s'.tails[c].proc;
    s'.tails[c].pc.Selecting? && (p < |s.lives| ==> s.store.procs[p].status.Running?)
  }

  /** A pid stays registered, for the same process or a new one. */
  predicate EntryFrame(s: State, s': State, pid: int)
    requires pid in s.store.registry
  {
    && pid in s'.store.registry
    && (s'.store.registry[pid] == s.store.registry[pid] || s'.store.registry[pid] >= |s.lives|)
  }

  predicate Frame(s: State, s': State, step: Step)
    requires Shape(s)
  {
    && Shape(s') && |s.lives| <= |s'.lives| && |s.tails| <= |s'.tails|
    && (forall p :: 0 <= p < |s.lives| ==> ProcFrame(s, s', p))
    && (forall c :: 0 <= c < |s.tails| ==> TailFrame(s, s', step, c))
    && (forall c :: |s.tails| <= c < |s'.tails| ==> NewTail(s, s', c))
    && (forall pid :: pid in s.store.registry ==> EntryFrame(s, s', pid))
    && StopsExtend(s.stops, s'.stops)
  }

  lemma FanOutFrames(s: State, step: Step)
    requires CoreInv(s) && Enabled(s, step) && step.FanOutLine?
    ensures Frame(s, DoFanOut(s, step.p, step.stdout), step)
  {
    var p := step.p;
    FanOutFrame(s, p, step.stdout);
    assert LifeOk(s.store.procs[p], s.lives[p]) && SubsOk(p, s.store.procs[p], s.store.chans, s.tails);
  }

  lemma MarkExitedFrames(s: State, step: Step)
    requires CoreInv(s) && Enabled(s, step) && step.MarkProcExited?
    ensures Frame(s, DoMarkExited(s, step.p), step)
  {
    var p := step.p;
    MarkExitedFrame(s, p);
    assert LifeOk(s.store.procs[p], s.lives[p]) && SubsOk(p, s.store.procs[p], s.store.chans, s.tails);
  }

  lemma UnsubscribeFrames(s: State, step: Step)
    requires CoreInv(s) && Enabled(s, step) && step.Unsubscribe? && Shape(DoUnsubscribe(s, step.c))
    ensures Frame(s, DoUnsubscribe(s, step.c), step)
  {
    forall p | 0 <= p < |s.lives| ensures ProcFrame(s, DoUnsubscribe(s, step.c), p) {
      LeftSubs(s, step.c, p);
    }
  }

  lemma OwnStepFrames(s: State, step: Step)
    requires Shape(s) && OwnStep(step) && Enabled(s, step) && Shape(DoOwnStep(s, step))
    ensures Frame(s, DoOwnStep(s, step), step)
  {
    var s' := DoOwnStep(s, step);
    forall c | 0 <= c < |s.tails| ensures TailFrame(s, s', step, c) {}
    forall p | 0 <= p < |s.lives| ensures ProcFrame(s, s', p) {}
  }

  lemma CallTailFrames(s: State, step: Step)
    requires Shape(s) && step.CallTail? && Shape(DoCallTail(s, step.pid))
    ensures Frame(s, DoCallTail(s, step.pid), step)
  {
  }

  /** The steps that touch neither the shared memory nor the Tails. */
  predicate OfRest(step: Step) {
    !OfTail(step) && !step.RegisterProc? && !step.FanOutLine? && !step.MarkProcExited? && !step.CloseProcDone?
  }

  lemma RestKeeps(s: State, step: Step)
    requires Shape(s) && Enabled(s, step) && OfRest(step)
    ensures var s' := Apply(s, step);
      && s'.store == s.store && s'.tails == s.tails && |s'.lives| == |s.lives| && StopsExtend(s.stops, s'.stops)
      && forall p :: 0 <= p < |s.lives| ==> s.lives[p].Reaped() ==> s'.lives[p].Reaped()
  {
  }

  lemma SameFrames(s: State, s': State, step: Step)
    requires Shape(s) && Shape(s') && s'.store == s.store && s'.tails == s.tails && StopsExtend(s.stops, s'.stops)
    requires forall p :: 0 <= p < |s.lives| ==> s.lives[p].Reaped() ==> s'.lives[p].Reaped()
    ensures Frame(s, s', step)
  {
    forall c | 0 <= c < |s.tails| ensures TailFrame(s, s', step, c) {}
    forall p | 0 <= p < |s.lives| ensures ProcFrame(s, s', p) {}
    forall pid | pid in s.store.registry ensures EntryFrame(s, s', pid) {}
  }

  lemma RegisterFrames(s: State, step: Step)
    requires Shape(s) && step.RegisterProc? && Shape(DoRegister(s, step.pid))
    ensures Frame(s, DoRegister(s, step.pid), step)
  {
  }

  lemma CloseDoneFrames(s: State, step: Step)
    requires Shape(s) && Enabled(s, step) && step.CloseProcDone? && Shape(DoCloseDone(s, step.p))
    ensures Frame(s, DoCloseDone(s, step.p), step)
  {
  }

  lemma TailStepFrames(s: State, step: Step)
    requires CoreInv(s) && Enabled(s, step) && OfTail(step) && Shape(Apply(s, step))
    ensures Frame(s, Apply(s, step), step)
  {
    if step.Unsubscribe? {
      UnsubscribeFrames(s, step);
    } else if step.CallTail? {
      CallTailFrames(s, step);
    } else {
      OwnStepFrames(s, step);
    }
  }

  lemma StoreStepFrames(s: State, step: Step)
    requires CoreInv(s) && Enabled(s, step) && !OfTail(step) && !OfRest(step) && Shape(Apply(s, step))
    ensures Frame(s, Apply(s, step), step)
  {
    if step.FanOutLine? {
      FanOutFrames(s, step);
    } else if step.MarkProcExited? {
      MarkExitedFrames(s, step);
    } else if step.RegisterProc? {
      RegisterFrames(s, step);
    } else {
      CloseDoneFrames(s, step);
    }
  }

  lemma StepFrames(s: State, step: Step)
    requires Inv(s) && Enabled(s, step)
    ensures Inv(Apply(s, step)) && Frame(s, Apply(s, step), step)
  {
    StepKeepsInv(s, step);
    if OfTail(step) {
      TailStepFrames(s, step);
    } else if OfRest(step) {
      RestKeeps(s, step);
      SameFrames(s, Apply(s, step), step);
    } else {
      StoreStepFrames(s, step);
    }
  }
}
