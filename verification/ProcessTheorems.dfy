/** What clients of the process manager can rely on, in every interleaving. */
module ProcessTheorems {
  import opened Basics
  import opened ProcessStore
  import opened ProcessProtocol
  import opened ProcessInvariant
  import opened ProcessFrame

  // ---- runs ----

  /** `steps[i]` leads from `states[i]` to `states[i + 1]`. */
  predicate StepAt(states: seq<State>, steps: seq<Step>, i: nat)
    requires i < |steps| && |states| == |steps| + 1
  {
    Shape(states[i]) && Enabled(states[i], steps[i]) && states[i + 1] == Apply(states[i], steps[i])
  }

  predicate Run(states: seq<State>, steps: seq<Step>) {
    && |states| == |steps| + 1
    && forall i :: 0 <= i < |steps| ==> StepAt(states, steps, i)
  }

  /** A run of a new ProcessManager. */
  predicate Behaviour(states: seq<State>, steps: seq<Step>) {
    Run(states, steps) && states[0] == INIT
  }

  lemma {:induction false} BehaviourInv(states: seq<State>, steps: seq<Step>, i: nat)
    requires Behaviour(states, steps) && i < |states|
    ensures Inv(states[i])
  {
    if i > 0 {
      BehaviourInv(states, steps, i - 1);
      assert StepAt(states, steps, i - 1);
      StepKeepsInv(states[i - 1], steps[i - 1]);
    } else {
      InitInv();
    }
  }

  lemma Extend(states: seq<State>, steps: seq<Step>, step: Step) returns (states': seq<State>, steps': seq<Step>)
    requires Behaviour(states, steps) && Shape(states[|steps|]) && Enabled(states[|steps|], step)
    ensures Behaviour(states', steps') && Shape(states'[|steps'|])
    ensures states'[|steps'|] == Apply(states[|steps|], step)
    ensures states <= states' && steps' == steps + [step]
  {
    BehaviourInv(states, steps, |steps|);
    StepKeepsInv(states[|steps|], step);
    states', steps' := states + [Apply(states[|steps|], step)], steps + [step];
    forall i | 0 <= i < |steps'| ensures StepAt(states', steps', i) {
      if i < |steps| {
        assert StepAt(states, steps, i);
      }
    }
  }

  // ---- channels ----

  /** No event is sent on a closed channel and no channel, `done` included, is closed twice. The
      subscribers of a running process are open, distinct and its own; an exited process has none
      and has an exit code. All of it holds across reuse of a pid. */
  lemma NeverPanics(states: seq<State>, steps: seq<Step>, i: nat)
    requires Behaviour(states, steps) && i < |states|
    ensures var s := states[i];
      && Shape(s) && !s.store.panicked
      && forall p :: 0 <= p < |s.store.procs| ==>
           var pr := s.store.procs[p];
           && Distinct(pr.subs) && AllOpen(s.store, pr.subs)
           && (forall k :: 0 <= k < |pr.subs| ==> s.tails[pr.subs[k]].proc == p)
           && (pr.status.Exited? ==> pr.subs == [] && pr.exitCode.Some?)
           && (pr.status.Running? ==> pr.exitCode.None? && !pr.done)
  {
    BehaviourInv(states, steps, i);
    var s := states[i];
    forall p | 0 <= p < |s.store.procs|
      ensures var pr := s.store.procs[p];
        && Distinct(pr.subs) && AllOpen(s.store, pr.subs)
        && (forall k :: 0 <= k < |pr.subs| ==> s.tails[pr.subs[k]].proc == p)
        && (pr.status.Exited? ==> pr.subs == [] && pr.exitCode.Some?)
        && (pr.status.Running? ==> pr.exitCode.None? && !pr.done)
    {
      assert LifeOk(s.store.procs[p], s.lives[p]);
      assert SubsOk(p, s.store.procs[p], s.store.chans, s.tails);
    }
  }

  // ---- delivery ----

  /** What was fanned out for the tailed process since the Tail registered. */
  function Offered(s: State, c: nat): seq<TailEvent>
    requires Shape(s) && c < |s.tails| && s.tails[c].start <= |s.lives[s.tails[c].proc].fan|
  {
    s.lives[s.tails[c].proc].fan[s.tails[c].start..]
  }

  /** Delivery accounting for any Tail. While it is subscribed (and after the waiter closed its
      channel) every event offered to it is received, buffered or counted as dropped; what got
      through is in order; and without drops it is everything. */
  lemma DeliveryAccounting(states: seq<State>, steps: seq<Step>, i: nat, c: nat)
    requires Behaviour(states, steps) && i < |states| && c < |states[i].tails|
    ensures var s := states[i];
      && Shape(s)
      && var t, ch, pr := s.tails[c], s.store.chans[c], s.store.procs[s.tails[c].proc];
         && t.start <= |s.lives[t.proc].fan|
         && |ch.buf| <= SUBSCRIBER_SLOTS
         && Subseq(t.received + ch.buf, Offered(s, c))
         && (c in pr.subs || ch.closed ==>
               && |Offered(s, c)| == |t.received| + |ch.buf| + t.dropped
               && (t.dropped == 0 ==> t.received + ch.buf == Offered(s, c)))
  {
    BehaviourInv(states, steps, i);
    var s := states[i];
    var t, ch, pr := s.tails[c], s.store.chans[c], s.store.procs[s.tails[c].proc];
    assert TailAt(s, c);
    if Counted(c, ch, pr) && t.dropped == 0 {
      SubseqSameLength(t.received + ch.buf, Offered(s, c));
    }
  }

  lemma FanOutDrops(s: State, p: nat, b: bool, c: nat)
    requires CoreInv(s) && Enabled(s, FanOutLine(p, b)) && c < |s.tails|
    ensures var s' := DoFanOut(s, p, b);
      && c < |s'.tails|
      && (s'.tails[c].dropped != s.tails[c].dropped ==>
            && s.tails[c].proc == p && |s.store.chans[c].buf| == SUBSCRIBER_SLOTS
            && s'.tails[c].dropped == s.tails[c].dropped + 1)
  {
    assert SubsOk(p, s.store.procs[p], s.store.chans, s.tails);
    assert TailAt(s, c);
  }

  /** A step drops an event of a Tail only by fanning out to it while all 256 slots are full. */
  lemma DropOnlyWhenFull(states: seq<State>, steps: seq<Step>, i: nat, c: nat)
    requires Behaviour(states, steps) && i < |steps| && c < |states[i].tails|
    ensures c < |states[i + 1].tails|
    ensures states[i + 1].tails[c].dropped != states[i].tails[c].dropped ==>
      && steps[i].FanOutLine?
      && Shape(states[i]) && steps[i].p < |states[i].store.procs| && states[i].tails[c].proc == steps[i].p
      && |states[i].store.chans[c].buf| == SUBSCRIBER_SLOTS
      && states[i + 1].tails[c].dropped == states[i].tails[c].dropped + 1
  {
    BehaviourInv(states, steps, i);
    assert StepAt(states, steps, i);
    StepFrames(states[i], steps[i]);
    if steps[i].FanOutLine? {
      FanOutDrops(states[i], steps[i].p, steps[i].stdout, c);
    } else {
      assert TailFrame(states[i], states[i + 1], steps[i], c);
    }
  }

  /** A fan-out of a line reaches every subscriber of the process with a free slot, as the newest event of its
      channel; a subscriber without one loses the line, and its channel stays as it is; no other channel is
      touched. */
  lemma FanOutDelivers(states: seq<State>, steps: seq<Step>, i: nat, p: nat, b: bool, c: nat)
    requires Behaviour(states, steps) && i < |steps| && steps[i] == FanOutLine(p, b) && c < |states[i].tails|
    ensures Shape(states[i]) && Shape(states[i + 1]) && c < |states[i + 1].tails| && p < |states[i].lives|
    ensures states[i].lives[p].At(b).pc.Sending?
    ensures var s, ch, t := states[i], states[i + 1].store.chans[c], states[i + 1].tails[c];
      var e, listed := TailEvent(b, s.lives[p].At(b).pc.line), c in s.store.procs[p].subs;
      && (listed && |s.store.chans[c].buf| < 256 ==>
            ch.buf == s.store.chans[c].buf + [e] && t.dropped == s.tails[c].dropped)
      && (listed && |s.store.chans[c].buf| == 256 ==>
            ch == s.store.chans[c] && t.dropped == s.tails[c].dropped + 1)
      && (!listed ==> ch == s.store.chans[c] && t == s.tails[c])
  {
    BehaviourInv(states, steps, i);
    BehaviourInv(states, steps, i + 1);
    assert StepAt(states, steps, i);
    FanOutFrame(states[i], p, b);
  }

  // ---- logs against the live stream ----

  /** At every moment the log of a stream is its part of the fan-out history plus at most one line in
      flight; once the process is marked exited the two are equal, on both streams. */
  lemma LogMatchesLive(states: seq<State>, steps: seq<Step>, i: nat, p: nat, stdout: bool)
    requires Behaviour(states, steps) && i < |states| && p < |states[i].lives|
    ensures var s := states[i];
      && Shape(s)
      && var r := s.lives[p].At(stdout);
         && Lines(s.lives[p].fan, stdout) <= r.log
         && |r.log| <= |Lines(s.lives[p].fan, stdout)| + 1
         && (s.store.procs[p].status.Exited? ==> r.log == Lines(s.lives[p].fan, stdout))
  {
    BehaviourInv(states, steps, i);
    assert LifeOk(states[i].store.procs[p], states[i].lives[p]);
  }

  /** The log file of a pid holds exactly what the readers of the process registered under it wrote,
      from its registration until a later Start reuses the pid. */
  lemma LogFileIsTheLog(states: seq<State>, steps: seq<Step>, i: nat, p: nat, stdout: bool)
    requires Behaviour(states, steps) && i < |states| && p < |states[i].lives|
    ensures Shape(states[i])
    ensures OwnsFiles(states[i], p) ==>
      var key := (states[i].store.procs[p].pid, stdout);
      key in states[i].files && states[i].files[key] == states[i].lives[p].At(stdout).log
    ensures !states[i].lives[p].Reaped() ==> OwnsFiles(states[i], p)
    ensures var pid := states[i].store.procs[p].pid;
      pid in states[i].store.registry && states[i].store.registry[pid] == p && !OwnsFiles(states[i], p) ==>
        (pid, stdout) in states[i].files
        && states[i].files[(pid, stdout)] in {[], states[i].lives[p].At(stdout).log}
  {
    BehaviourInv(states, steps, i);
    assert FileOk(states[i], p, stdout);
    assert PidOk(states[i], p);
  }

  lemma {:induction false} LinesSubseq(a: seq<TailEvent>, b: seq<TailEvent>, stdout: bool)
    requires Subseq(a, b)
    ensures Subseq(Lines(a, stdout), Lines(b, stdout))
    decreases |b|
  {
    if a != [] {
      var e := b[|b| - 1];
      if a[|a| - 1] == e && Subseq(a[..|a| - 1], b[..|b| - 1]) {
        LinesSubseq(a[..|a| - 1], b[..|b| - 1], stdout);
        SubseqAppendBoth(Lines(a[..|a| - 1], stdout), Lines(b[..|b| - 1], stdout), e.line);
      } else {
        LinesSubseq(a, b[..|b| - 1], stdout);
        SubseqAppendRight(Lines(a, stdout), Lines(b[..|b| - 1], stdout), e.line);
      }
    }
  }

  /** The lines of one stream among the messages sent to a client. */
  function SentLines(sent: seq<TailMsg>, stdout: bool): seq<string> {
    if sent == [] then []
    else
      var front := SentLines(sent[..|sent| - 1], stdout);
      var m := sent[|sent| - 1];
      if m.LineMsg? && m.event.stdout == stdout then front + [m.event.line] else front
  }

  lemma {:induction false} SentLinesOfMsgs(events: seq<TailEvent>, stdout: bool)
    ensures SentLines(Msgs(events), stdout) == Lines(events, stdout)
  {
    if events != [] {
      SentLinesOfMsgs(events[..|events| - 1], stdout);
      assert Msgs(events)[..|events| - 1] == Msgs(events[..|events| - 1]);
    }
  }

  lemma ExitMsgHasNoLine(sent: seq<TailMsg>, code: int, stdout: bool)
    ensures SentLines(sent + [ExitMsg(code)], stdout) == SentLines(sent, stdout)
  {
    TakeDrop(sent, [ExitMsg(code)]);
  }

  /** The lines sent by a Tail are those of a prefix of what it received: all of it, or all but the
      event in hand. */
  lemma SentPrefix(t: Tail, ch: Chan, pr: Proc, stdout: bool) returns (n: nat)
    requires SentOk(t, ch, pr)
    ensures n <= |t.received| && SentLines(t.sent, stdout) == Lines(t.received[..n], stdout)
  {
    assert t.received[..|t.received|] == t.received;
    n := |t.received|;
    if t.pc.Holding? || ((t.pc.Leaving? || t.pc.Left?) && t.pc.outcome.SendFailed?) {
      n := n - 1;
    }
    SentLinesOfMsgs(t.received[..n], stdout);
    if (t.pc.Leaving? || t.pc.Left?) && t.pc.outcome.ExitSent? {
      ExitMsgHasNoLine(Msgs(t.received), t.pc.outcome.code, stdout);
      assert Msgs(t.received) + [] == Msgs(t.received);
    }
  }

  lemma PrefixLogged(t: Tail, ch: Chan, l: Life, n: nat, stdout: bool)
    requires n <= |t.received| && t.start <= |l.fan| && Subseq(t.received + ch.buf, l.fan[t.start..])
    requires StreamOk(l.fan, stdout, l.At(stdout))
    ensures Subseq(Lines(t.received[..n], stdout), l.At(stdout).log)
  {
    var events := t.received[..n];
    SubseqPrefix(events, t.received[n..] + ch.buf);
    assert events + (t.received[n..] + ch.buf) == t.received + ch.buf;
    SubseqTrans(events, t.received + ch.buf, l.fan[t.start..]);
    SubseqDropRight(events, l.fan, t.start);
    LinesSubseq(events, l.fan, stdout);
    var live := Lines(l.fan, stdout);
    var inFlight := l.At(stdout).log[|live|..];
    assert l.At(stdout).log == live + inFlight;
    SubseqPrefix(live, inFlight);
    SubseqTrans(Lines(events, stdout), live, live + inFlight);
  }

  /** Every line that any Tail ever sent occurs in the log of its stream, in the same order. */
  lemma TailedLinesAreLogged(states: seq<State>, steps: seq<Step>, i: nat, c: nat, stdout: bool)
    requires Behaviour(states, steps) && i < |states| && c < |states[i].tails|
    ensures Shape(states[i])
    ensures Subseq(SentLines(states[i].tails[c].sent, stdout), states[i].lives[states[i].tails[c].proc].At(stdout).log)
  {
    BehaviourInv(states, steps, i);
    var s := states[i];
    var t, ch := s.tails[c], s.store.chans[c];
    var pr, l := s.store.procs[t.proc], s.lives[t.proc];
    assert TailAt(s, c) && LifeOk(pr, l);
    var n := SentPrefix(t, ch, pr, stdout);
    PrefixLogged(t, ch, l, n, stdout);
  }

  // ---- how a Tail ends ----

  /** A Tail that ends because its channel was closed has sent everything it received, its buffer is
      empty, and the last message, unless its send failed, is the only exit event, with the recorded
      code. It never reports the fallback code 0. If nothing was dropped it has sent the whole stream
      since registration. */
  lemma TailEndsWithExitCode(states: seq<State>, steps: seq<Step>, i: nat, c: nat)
    requires Behaviour(states, steps) && i < |states| && c < |states[i].tails|
    ensures var s := states[i];
      && Shape(s)
      && var t, pr := s.tails[c], s.store.procs[s.tails[c].proc];
         && !(t.pc.HasCode? && t.pc.fellBack)
         && (forall code, ok :: t.pc == Left(ExitSent(code, ok)) ==>
               && pr.status.Exited? && pr.exitCode == Some(code)
               && s.store.chans[c].buf == []
               && t.sent == Msgs(t.received) + (if ok then [ExitMsg(code)] else [])
               && (t.dropped == 0 ==> t.start <= |s.lives[t.proc].fan| && t.received == Offered(s, c)))
  {
    BehaviourInv(states, steps, i);
    DeliveryAccounting(states, steps, i, c);
    var s := states[i];
    var t := s.tails[c];
    assert TailAt(s, c);
    assert t.received + [] == t.received;
  }

  /** How many steps a Tail of an exited process can still take. */
  function Work(t: Tail, ch: Chan): nat {
    match t.pc
    case Selecting => 2 * |ch.buf| + 4
    case Holding(_) => 2 * |ch.buf| + 5
    case SawClose => 3
    case HasCode(_, _) => 2
    case Leaving(_) => 1
    case Left(_) => 0
  }

  predicate TailsExited(s: State, c: nat) {
    Shape(s) && c < |s.tails| && s.store.procs[s.tails[c].proc].status.Exited?
  }

  /** Receives still possible: one per buffered event and one that finds the channel closed. */
  function ReceivesLeft(t: Tail, ch: Chan): nat {
    |ch.buf| + if AfterClose(t.pc) then 0 else 1
  }

  /** From `s` to `s'` the Tail took `n` steps, paid for by its remaining work and receives. */
  predicate Spent(s: State, s': State, c: nat, n: nat)
    requires TailsExited(s, c)
  {
    && TailsExited(s', c)
    && s'.tails[c].proc == s.tails[c].proc
    && n + Work(s'.tails[c], s'.store.chans[c]) <= Work(s.tails[c], s.store.chans[c])
    && s'.tails[c].receives + ReceivesLeft(s'.tails[c], s'.store.chans[c])
         <= s.tails[c].receives + ReceivesLeft(s.tails[c], s.store.chans[c])
  }

  lemma OwnStepSpends(s: State, step: Step, c: nat)
    requires Shape(s) && Enabled(s, step) && OwnStep(step) && step.c == c && TailsExited(s, c)
    ensures Spent(s, DoOwnStep(s, step), c, 1)
  {
  }

  lemma UnsubscribeSpends(s: State, c: nat)
    requires Shape(s) && Enabled(s, Unsubscribe(c)) && TailsExited(s, c) && Shape(DoUnsubscribe(s, c))
    ensures Spent(s, DoUnsubscribe(s, c), c, 1)
  {
  }

  lemma TailStepSpends(s: State, step: Step, c: nat)
    requires Inv(s) && Enabled(s, step) && TailsExited(s, c) && IsTailStep(step, c)
    ensures Spent(s, Apply(s, step), c, 1)
  {
    StepKeepsInv(s, step);
    if step.Unsubscribe? {
      UnsubscribeSpends(s, c);
    } else {
      OwnStepSpends(s, step, c);
    }
  }

  /** Once its process is exited, a Tail is never stuck, its own steps use up its remaining work, and
      no other goroutine's step touches it or its channel. */
  lemma ExitedTailProgress(s: State, step: Step, c: nat)
    requires Inv(s) && Enabled(s, step) && TailsExited(s, c)
    ensures !s.tails[c].pc.Left? ==> exists own :: IsTailStep(own, c) && !own.CancelTail? && Enabled(s, own)
    ensures var s' := Apply(s, step);
      && TailsExited(s', c) && s'.tails[c].proc == s.tails[c].proc
      && (IsTailStep(step, c) ==> Work(s'.tails[c], s'.store.chans[c]) < Work(s.tails[c], s.store.chans[c]))
      && (!IsTailStep(step, c) ==> s'.tails[c] == s.tails[c] && s'.store.chans[c] == s.store.chans[c])
  {
    NeverStuck(s, c);
    StepFrames(s, step);
    assert TailFrame(s, Apply(s, step), step, c) && ProcFrame(s, Apply(s, step), s.tails[c].proc);
    if IsTailStep(step, c) {
      TailStepSpends(s, step, c);
    }
  }

  lemma NeverStuck(s: State, c: nat)
    requires CoreInv(s) && TailsExited(s, c)
    ensures !s.tails[c].pc.Left? ==> exists own :: IsTailStep(own, c) && !own.CancelTail? && Enabled(s, own)
  {
    var t := s.tails[c];
    assert TailAt(s, c);
    assert LifeOk(s.store.procs[t.proc], s.lives[t.proc]);
    var own := match t.pc
      case Selecting => ReceiveEvent(c)
      case Holding(_) => SendLine(c, true)
      case SawClose => ReadExitCode(c)
      case HasCode(_, _) => SendExit(c, true)
      case Leaving(_) => Unsubscribe(c)
      case Left(_) => Unsubscribe(c);
    assert !t.pc.Left? ==> IsTailStep(own, c) && !own.CancelTail? && Enabled(s, own);
  }

  function CountTailSteps(steps: seq<Step>, c: nat): nat {
    if steps == [] then 0
    else CountTailSteps(steps[..|steps| - 1], c) + if IsTailStep(steps[|steps| - 1], c) then 1 else 0
  }

  lemma SpentTrans(s: State, s1: State, s2: State, c: nat, n: nat, m: nat)
    requires TailsExited(s, c) && Spent(s, s1, c, n) && Spent(s1, s2, c, m)
    ensures Spent(s, s2, c, n + m)
  {
  }

  lemma CountSnoc(steps: seq<Step>, i: nat, j: nat, c: nat)
    requires i < j <= |steps|
    ensures CountTailSteps(steps[i..j], c)
         == CountTailSteps(steps[i..j - 1], c) + if IsTailStep(steps[j - 1], c) then 1 else 0
  {
    assert steps[i..j][..j - i - 1] == steps[i..j - 1];
  }

  lemma StepInRunSpends(states: seq<State>, steps: seq<Step>, j: nat, c: nat)
    requires Behaviour(states, steps) && j < |steps| && TailsExited(states[j], c)
    ensures Spent(states[j], states[j + 1], c, if IsTailStep(steps[j], c) then 1 else 0)
  {
    BehaviourInv(states, steps, j);
    assert StepAt(states, steps, j);
    ExitedTailProgress(states[j], steps[j], c);
    if IsTailStep(steps[j], c) {
      TailStepSpends(states[j], steps[j], c);
    }
  }

  lemma {:induction false} RunSpends(states: seq<State>, steps: seq<Step>, i: nat, j: nat, c: nat)
    requires Behaviour(states, steps) && i <= j < |states| && TailsExited(states[i], c)
    ensures Spent(states[i], states[j], c, CountTailSteps(steps[i..j], c))
    decreases j
  {
    if i < j {
      RunSpends(states, steps, i, j - 1, c);
      StepInRunSpends(states, steps, j - 1, c);
      CountSnoc(steps, i, j, c);
      SpentTrans(states[i], states[j - 1], states[j], c,
                 CountTailSteps(steps[i..j - 1], c), if IsTailStep(steps[j - 1], c) then 1 else 0);
    }
  }

  /** After the waiter's critical section a Tail needs at most one receive per buffered event and one
      more, hence at most 257, and at most 517 steps in all, whatever else runs. */
  lemma TailFinishes(states: seq<State>, steps: seq<Step>, i: nat, j: nat, c: nat)
    requires Behaviour(states, steps) && i <= j < |states| && TailsExited(states[i], c)
    ensures var s, s' := states[i], states[j];
      && TailsExited(s', c) && s'.tails[c].proc == s.tails[c].proc
      && s'.tails[c].receives - s.tails[c].receives <= |s.store.chans[c].buf| + 1 <= 257
      && CountTailSteps(steps[i..j], c) <= 2 * |s.store.chans[c].buf| + 5 <= 517
  {
    RunSpends(states, steps, i, j, c);
    BehaviourInv(states, steps, i);
    assert TailAt(states[i], c);
  }

  /** `p` stays exited with the same code, and no Tail that `s'` has beyond those of `s` is its. */
  predicate Frozen(s: State, s': State, p: nat) {
    && Shape(s) && Shape(s') && p < |s.lives| <= |s'.lives|
    && s.store.procs[p].status.Exited? && s'.store.procs[p].status.Exited?
    && s'.store.procs[p].exitCode == s.store.procs[p].exitCode
    && |s.tails| <= |s'.tails|
    && forall d :: |s.tails| <= d < |s'.tails| ==> s'.tails[d].proc != p
  }

  /** Tail calls keep their process. */
  predicate SameTails(s: State, s': State) {
    |s.tails| <= |s'.tails| && forall d :: 0 <= d < |s.tails| ==> s'.tails[d].proc == s.tails[d].proc
  }

  lemma FrozenByFrame(s: State, s': State, step: Step, p: nat)
    requires Shape(s) && Frame(s, s', step) && p < |s.lives| && s.store.procs[p].status.Exited?
    ensures Frozen(s, s', p) && SameTails(s, s')
  {
    assert ProcFrame(s, s', p);
    forall d | 0 <= d < |s.tails| ensures s'.tails[d].proc == s.tails[d].proc {
      assert TailFrame(s, s', step, d);
    }
    forall d | |s.tails| <= d < |s'.tails| ensures s'.tails[d].proc != p {
      assert NewTail(s, s', d);
    }
  }

  lemma FrozenTrans(s: State, s1: State, s2: State, p: nat)
    requires Frozen(s, s1, p) && Frozen(s1, s2, p) && SameTails(s1, s2)
    ensures Frozen(s, s2, p)
  {
  }

  /** Once a process is exited its exit code never changes and no Tail registers on it. */
  lemma {:induction false} NoLateTail(states: seq<State>, steps: seq<Step>, i: nat, j: nat, p: nat)
    requires Behaviour(states, steps) && i <= j < |states|
    requires Shape(states[i]) && p < |states[i].lives| && states[i].store.procs[p].status.Exited?
    ensures Frozen(states[i], states[j], p)
    decreases j
  {
    if i < j {
      NoLateTail(states, steps, i, j - 1, p);
      BehaviourInv(states, steps, j - 1);
      assert StepAt(states, steps, j - 1);
      StepFrames(states[j - 1], steps[j - 1]);
      FrozenByFrame(states[j - 1], states[j], steps[j - 1], p);
      FrozenTrans(states[i], states[j - 1], states[j], p);
    }
  }

  // ---- deregistration ----

  /** A younger process is registered under the pid of `p`. */
  predicate Replaced(s: State, p: nat)
    requires Shape(s) && p < |s.lives|
  {
    var pid := s.store.procs[p].pid;
    pid in s.store.registry && s.store.registry[pid] != p
  }

  /** A Tail that has returned is no longer subscribed, or its process has been reaped and replaced. */
  predicate LeftOk(s: State)
    requires Shape(s)
  {
    forall c :: 0 <= c < |s.tails| && s.tails[c].pc.Left? ==>
      var p := s.tails[c].proc;
      c !in s.store.procs[p].subs || (s.lives[p].Reaped() && Replaced(s, p))
  }

  /** removeSubscriber leaves the channel in the list exactly if a younger process has the pid. */
  lemma UnsubscribeRemovesIff(s: State, c: nat)
    requires Inv(s) && Enabled(s, Unsubscribe(c))
    ensures var s' := Apply(s, Unsubscribe(c));
      var p := s.tails[c].proc;
      && |s'.store.procs| == |s.store.procs|
      && (c in s'.store.procs[p].subs <==> c in s.store.procs[p].subs && Replaced(s, p))
  {
    var p := s.tails[c].proc;
    assert SubsOk(p, s.store.procs[p], s.store.chans, s.tails);
    WithoutFacts(s.store.procs[p].subs, c);
  }

  /** A reaped and replaced process stays so, and is not given an old channel back. */
  lemma LeftByFrame(s: State, s': State, step: Step, c: nat)
    requires Shape(s) && Frame(s, s', step) && c < |s.tails| && s'.tails[c].proc == s.tails[c].proc
    requires var p := s.tails[c].proc; c !in s.store.procs[p].subs || (s.lives[p].Reaped() && Replaced(s, p))
    ensures var p := s.tails[c].proc; c !in s'.store.procs[p].subs || (s'.lives[p].Reaped() && Replaced(s', p))
  {
    var p := s.tails[c].proc;
    assert ProcFrame(s, s', p);
    if Replaced(s, p) {
      assert EntryFrame(s, s', s.store.procs[p].pid);
    }
  }

  lemma StepKeepsLeft(s: State, step: Step)
    requires Inv(s) && LeftOk(s) && Enabled(s, step)
    ensures Shape(Apply(s, step)) && LeftOk(Apply(s, step))
  {
    var s' := Apply(s, step);
    StepFrames(s, step);
    forall c | 0 <= c < |s'.tails| && s'.tails[c].pc.Left?
      ensures var p := s'.tails[c].proc; c !in s'.store.procs[p].subs || (s'.lives[p].Reaped() && Replaced(s', p))
    {
      if c < |s.tails| {
        assert TailFrame(s, s', step, c);
        if step == Unsubscribe(c) {
          LeftAtOnce(s, c);
        } else {
          LeftByFrame(s, s', step, c);
        }
      }
    }
  }

  lemma LeftAtOnce(s: State, c: nat)
    requires Inv(s) && Enabled(s, Unsubscribe(c)) && Shape(DoUnsubscribe(s, c))
    ensures var s', p := DoUnsubscribe(s, c), s.tails[c].proc;
      c !in s'.store.procs[p].subs || (s'.lives[p].Reaped() && Replaced(s', p))
  {
    UnsubscribeRemovesIff(s, c);
    assert PidOk(s, s.tails[c].proc);
  }

  lemma {:induction false} BehaviourLeft(states: seq<State>, steps: seq<Step>, i: nat)
    requires Behaviour(states, steps) && i < |states|
    ensures Shape(states[i]) && LeftOk(states[i])
  {
    if i > 0 {
      BehaviourLeft(states, steps, i - 1);
      BehaviourInv(states, steps, i - 1);
      assert StepAt(states, steps, i - 1);
      StepKeepsLeft(states[i - 1], steps[i - 1]);
    }
  }

  /** After a Tail has returned its channel is never filled again. That is so even if its process keeps
      the channel because removeSubscriber found a younger process under the pid. */
  lemma LeftTailGetsNothing(states: seq<State>, steps: seq<Step>, i: nat, c: nat)
    requires Behaviour(states, steps) && i < |steps|
    requires c < |states[i].tails| && states[i].tails[c].pc.Left?
    ensures Shape(states[i]) && Shape(states[i + 1]) && c < |states[i + 1].tails|
    ensures states[i + 1].store.chans[c].buf == states[i].store.chans[c].buf
    ensures states[i + 1].tails[c] == states[i].tails[c]
  {
    BehaviourLeft(states, steps, i);
    BehaviourInv(states, steps, i);
    assert StepAt(states, steps, i);
    StepFrames(states[i], steps[i]);
    assert TailFrame(states[i], states[i + 1], steps[i], c);
  }

  // ---- Stop and StopAll ----

  /** Whenever a Stop call has returned success, the process it looked up is exited, with an exit code,
      however many Stop calls run on the same pid; an "already exited" answer is true as well. */
  lemma StopMeansExited(states: seq<State>, steps: seq<Step>, i: nat, k: nat)
    requires Behaviour(states, steps) && i < |states| && k < |states[i].stops|
    ensures var s := states[i];
      && Shape(s)
      && var call := s.stops[k];
         (call.pc == StopReturned(Stopped) || call.pc == StopReturned(HadExited)) ==>
           && call.proc.Some?
           && s.store.procs[call.proc.value].pid == call.pid
           && s.store.procs[call.proc.value].status.Exited?
           && s.store.procs[call.proc.value].exitCode.Some?
  {
    BehaviourInv(states, steps, i);
    var s := states[i];
    assert StopOk(s.stops[k], s.store.procs);
    if s.stops[k].proc.Some? {
      var p := s.stops[k].proc.value;
      assert LifeOk(s.store.procs[p], s.lives[p]);
    }
  }

  /** The steps that decide how a Stop call returns. */
  predicate SignalFailed(steps: seq<Step>, k: nat) {
    SendTerm(k, false) in steps || SendKill(k, false) in steps
  }

  /** A Stop call has returned a failed signal exactly if one of its signals has failed, and success exactly if it
      has seen the done channel closed. */
  predicate ReturnsAsSeen(s: State, steps: seq<Step>, k: nat) {
    && (SignalFailed(steps, k) <==> k < |s.stops| && s.stops[k].pc == StopReturned(KillFailed))
    && (SeeDone(k) in steps <==> k < |s.stops| && s.stops[k].pc == StopReturned(Stopped))
  }

  lemma SeenSnoc(steps: seq<Step>, step: Step, k: nat)
    ensures SignalFailed(steps + [step], k) <==>
      SignalFailed(steps, k) || step == SendTerm(k, false) || step == SendKill(k, false)
    ensures SeeDone(k) in steps + [step] <==> SeeDone(k) in steps || step == SeeDone(k)
  {
  }

  lemma StepReturnsAsSeen(s: State, steps: seq<Step>, step: Step, k: nat)
    requires Shape(s) && Enabled(s, step) && OfStop(step) && ReturnsAsSeen(s, steps, k)
    ensures ReturnsAsSeen(Apply(s, step), steps + [step], k)
  {
    SeenSnoc(steps, step, k);
  }

  lemma OthersKeepStops(s: State, step: Step)
    requires Shape(s) && Enabled(s, step) && !OfStop(step)
    ensures Apply(s, step).stops == s.stops
  {
  }

  lemma {:induction false} StopReturnsAsSeen(states: seq<State>, steps: seq<Step>, i: nat, k: nat)
    requires Behaviour(states, steps) && i < |states|
    ensures ReturnsAsSeen(states[i], steps[..i], k)
  {
    if i > 0 {
      StopReturnsAsSeen(states, steps, i - 1, k);
      BehaviourInv(states, steps, i - 1);
      assert StepAt(states, steps, i - 1);
      assert steps[..i] == steps[..i - 1] + [steps[i - 1]];
      if OfStop(steps[i - 1]) {
        StepReturnsAsSeen(states[i - 1], steps[..i - 1], steps[i - 1], k);
      } else {
        OthersKeepStops(states[i - 1], steps[i - 1]);
        SeenSnoc(steps[..i - 1], steps[i - 1], k);
      }
    }
  }

  /** When StopAll has returned, each of its Stop calls has returned and found a process under its pid.
      Unless that call failed to signal, the process it found is exited, and the process that was
      running when StopAll took its list is at least reaped by the kernel; if no Start took over its
      pid in between, it is exited too. */
  lemma StopAllMeansStopped(states: seq<State>, steps: seq<Step>, i: nat, a: nat, n: nat)
    requires Behaviour(states, steps) && i < |states| && a < |states[i].stopAlls|
    requires states[i].stopAlls[a].returned && n < |states[i].stopAlls[a].pids|
    ensures var s, all := states[i], states[i].stopAlls[a];
      && Shape(s) && all.calls[n].Some?
      && var call := s.stops[all.calls[n].value];
         && call.pid == all.pids[n] && call.pc.StopReturned? && call.proc.Some?
         && (call.pc.result != KillFailed ==>
               && s.store.procs[call.proc.value].status.Exited?
               && s.store.procs[call.proc.value].exitCode.Some?
               && s.lives[all.snapshot[n]].Reaped()
               && (call.proc.value == all.snapshot[n] ==> s.store.procs[all.snapshot[n]].status.Exited?))
  {
    BehaviourInv(states, steps, i);
    var s, all := states[i], states[i].stopAlls[a];
    assert StopAllOk(s, all);
    assert StopAllItemOk(s, all, n);
    var k := all.calls[n].value;
    assert StopOk(s.stops[k], s.store.procs);
    var p := s.stops[k].proc.value;
    assert LifeOk(s.store.procs[p], s.lives[p]);
  }
}
