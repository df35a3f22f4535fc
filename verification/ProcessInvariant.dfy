/** The inductive invariant of the process protocol and its preservation by every step. */
module ProcessInvariant {
  import opened Basics
  import opened ProcessStore
  import opened ProcessProtocol

  // ---- one process ----

  /** The log of a stream is its part of the fan-out history plus at most one line in flight. */
  predicate StreamOk(fan: seq<TailEvent>, stdout: bool, r: Reader) {
    r.log == Lines(fan, stdout) + if r.pc.Sending? then [r.pc.line] else []
  }

  predicate LifeOk(pr: Proc, l: Life) {
    && StreamOk(l.fan, true, l.out) && StreamOk(l.fan, false, l.err)
    && (l.Reaped() ==> l.out.pc.Finished? && l.err.pc.Finished?)
    && (pr.status.Exited? <==> l.waiter.HasMarked? || l.waiter.WaiterDone?)
    && pr.exitCode == (if pr.status.Exited? then Some(l.waiter.code) else None)
    && (pr.status.Exited? ==> pr.subs == [])
    && (pr.done <==> l.waiter.WaiterDone?)
  }

  predicate SubsOk(p: nat, pr: Proc, chans: seq<Chan>, tails: seq<Tail>)
    requires |tails| == |chans| && InRange(pr.subs, |chans|)
  {
    && Distinct(pr.subs)
    && forall i :: 0 <= i < |pr.subs| ==> !chans[pr.subs[i]].closed && tails[pr.subs[i]].proc == p
  }

  // ---- one Tail call and its channel ----

  function Msgs(events: seq<TailEvent>): (r: seq<TailMsg>)
    ensures |r| == |events| && forall i :: 0 <= i < |r| ==> r[i] == LineMsg(events[i])
  {
    seq(|events|, i requires 0 <= i < |events| => LineMsg(events[i]))
  }

  predicate AfterClose(pc: TailPc) {
    pc.SawClose? || pc.HasCode? || ((pc.Leaving? || pc.Left?) && pc.outcome.ExitSent?)
  }

  predicate OutcomeOk(o: TailOutcome, t: Tail, pr: Proc) {
    match o
    case Cancelled => t.sent == Msgs(t.received)
    case SendFailed => t.received != [] && t.sent == Msgs(t.received[..|t.received| - 1])
    case ExitSent(code, ok) =>
      t.sent == Msgs(t.received) + (if ok then [ExitMsg(code)] else []) && pr.exitCode == Some(code)
  }

  predicate SentOk(t: Tail, ch: Chan, pr: Proc) {
    && t.receives == |t.received| + (if AfterClose(t.pc) then 1 else 0)
    && (AfterClose(t.pc) ==> ch.closed && ch.buf == [])
    && match t.pc
       case Selecting => t.sent == Msgs(t.received)
       case Holding(e) =>
         t.received != [] && t.received[|t.received| - 1] == e && t.sent == Msgs(t.received[..|t.received| - 1])
       case SawClose => t.sent == Msgs(t.received)
       case HasCode(code, fellBack) => t.sent == Msgs(t.received) && !fellBack && pr.exitCode == Some(code)
       case Leaving(o) => OutcomeOk(o, t, pr)
       case Left(o) => OutcomeOk(o, t, pr)
  }

  predicate Counted(c: nat, ch: Chan, pr: Proc) {
    c in pr.subs || ch.closed
  }

  predicate TailOk(c: nat, ch: Chan, t: Tail, pr: Proc, fan: seq<TailEvent>) {
    && t.start <= |fan|
    && |ch.buf| <= SUBSCRIBER_SLOTS
    && Subseq(t.received + ch.buf, fan[t.start..])
    && (ch.closed ==> pr.status.Exited?)
    && (!Counted(c, ch, pr) ==> t.pc.Left?)
    && (Counted(c, ch, pr) ==> |t.received| + |ch.buf| + t.dropped == |fan| - t.start)
    && SentOk(t, ch, pr)
  }

  // ---- pids, registry, log files ----

  predicate RegistryOk(st: Store)
    requires StoreShape(st)
  {
    && (forall pid :: pid in st.registry ==> st.procs[st.registry[pid]].pid == pid)
    && (forall p :: 0 <= p < |st.procs| ==> st.procs[p].pid in st.registry)
  }

  /** A process the kernel still knows owns its pid, and with it the registry entry. */
  predicate PidOk(s: State, p: nat)
    requires p < |s.store.procs| && |s.lives| == |s.store.procs|
  {
    var pid := s.store.procs[p].pid;
    !s.lives[p].Reaped() ==>
      pid in s.osPids && pid !in s.starting && pid in s.store.registry && s.store.registry[pid] == p
  }

  predicate StartingOk(s: State) {
    forall pid :: pid in s.starting ==>
      && pid in s.osPids
      && (!s.starting[pid].NeedStdoutLog? ==> (pid, true) in s.files && s.files[(pid, true)] == [])
      && (s.starting[pid].NeedRegister? ==> (pid, false) in s.files && s.files[(pid, false)] == [])
  }

  /** No later Start has touched the log files of `p`. */
  predicate OwnsFiles(s: State, p: nat)
    requires p < |s.store.procs| && |s.lives| == |s.store.procs|
  {
    var pid := s.store.procs[p].pid;
    && pid in s.store.registry && s.store.registry[pid] == p
    && (!s.lives[p].Reaped() || pid !in s.osPids)
  }

  /** The file of the registered process holds its log, until a later Start on the pid empties it. */
  predicate FileOk(s: State, p: nat, b: bool)
    requires p < |s.store.procs| && |s.lives| == |s.store.procs|
  {
    var pid := s.store.procs[p].pid;
    pid in s.store.registry && s.store.registry[pid] == p ==>
      && (pid, b) in s.files
      && (s.files[(pid, b)] == s.lives[p].At(b).log
          || (s.files[(pid, b)] == [] && s.lives[p].Reaped() && pid in s.osPids))
  }

  // ---- Stop and StopAll ----

  predicate StopOk(call: StopCall, procs: seq<Proc>)
    requires call.proc.Some? ==> call.proc.value < |procs|
  {
    && (call.proc.None? <==> call.pc == StopReturned(UnknownPid))
    && (call.proc.Some? ==>
          && procs[call.proc.value].pid == call.pid
          && (call.pc == StopReturned(HadExited) ==> procs[call.proc.value].status.Exited?)
          && (call.pc == StopReturned(Stopped) ==> procs[call.proc.value].done))
  }

  predicate StopAllItemOk(s: State, a: StopAllCall, i: nat)
    requires Shape(s) && StopAllShape(a, |s.lives|, |s.stops|) && i < |a.pids|
  {
    && s.store.procs[a.snapshot[i]].pid == a.pids[i]
    && (a.returned ==> a.calls[i].Some?)
    && (a.calls[i].Some? ==>
          var call := s.stops[a.calls[i].value];
          && call.pid == a.pids[i] && call.proc.Some?
          && (call.proc.value == a.snapshot[i] || s.lives[a.snapshot[i]].Reaped())
          && (a.returned ==> call.pc.StopReturned?))
  }

  predicate StopAllOk(s: State, a: StopAllCall)
    requires Shape(s) && StopAllShape(a, |s.lives|, |s.stops|)
  {
    forall i :: 0 <= i < |a.pids| ==> StopAllItemOk(s, a, i)
  }

  // ---- the invariant ----

  predicate ProcsInv(s: State)
    requires Shape(s)
  {
    && (forall p :: 0 <= p < |s.lives| ==> LifeOk(s.store.procs[p], s.lives[p]))
    && (forall p :: 0 <= p < |s.lives| ==> SubsOk(p, s.store.procs[p], s.store.chans, s.tails))
  }

  predicate TailAt(s: State, c: nat)
    requires Shape(s) && c < |s.tails|
  {
    var t := s.tails[c];
    TailOk(c, s.store.chans[c], t, s.store.procs[t.proc], s.lives[t.proc].fan)
  }

  predicate TailsInv(s: State)
    requires Shape(s)
  {
    forall c :: 0 <= c < |s.tails| ==> TailAt(s, c)
  }

  predicate PidsInv(s: State)
    requires Shape(s)
  {
    && RegistryOk(s.store) && StartingOk(s)
    && (forall p :: 0 <= p < |s.lives| ==> PidOk(s, p))
    && (forall p, b :: 0 <= p < |s.lives| ==> FileOk(s, p, b))
  }

  predicate StopsInv(s: State)
    requires Shape(s)
  {
    && (forall k :: 0 <= k < |s.stops| ==> StopOk(s.stops[k], s.store.procs))
    && (forall a :: 0 <= a < |s.stopAlls| ==> StopAllOk(s, s.stopAlls[a]))
  }

  /** Processes, channels and Tails. */
  predicate CoreInv(s: State) {
    Shape(s) && !s.store.panicked && ProcsInv(s) && TailsInv(s)
  }

  predicate Inv(s: State) {
    CoreInv(s) && PidsInv(s) && StopsInv(s)
  }

  lemma InitInv()
    ensures Inv(INIT)
  {
  }

  // ---- Stop and StopAll see the rest of the state only through these facts ----

  /** Processes keep their pid, never come back to life, and a reaped one stays reaped. */
  predicate Monotone(s: State, s': State)
    requires Shape(s)
  {
    && |s.store.procs| <= |s'.store.procs| && |s'.lives| == |s'.store.procs|
    && forall p :: 0 <= p < |s.store.procs| ==>
         && s'.store.procs[p].pid == s.store.procs[p].pid
         && (s.store.procs[p].status.Exited? ==> s'.store.procs[p].status.Exited?)
         && (s.store.procs[p].done ==> s'.store.procs[p].done)
         && (s.lives[p].Reaped() ==> s'.lives[p].Reaped())
  }

  /** Stop calls keep their pid and process and are only added; one that has returned stays as it is. */
  predicate StopsExtend(stops: seq<StopCall>, stops': seq<StopCall>) {
    && |stops| <= |stops'|
    && forall k :: 0 <= k < |stops| ==>
         && stops'[k].pid == stops[k].pid && stops'[k].proc == stops[k].proc
         && (stops[k].pc.StopReturned? ==> stops'[k] == stops[k])
  }

  lemma StopAllKept(s: State, s': State, a: StopAllCall)
    requires Shape(s) && Shape(s') && Monotone(s, s') && StopsExtend(s.stops, s'.stops)
    requires StopAllShape(a, |s.lives|, |s.stops|) && StopAllShape(a, |s'.lives|, |s'.stops|) && StopAllOk(s, a)
    ensures StopAllOk(s', a)
  {
    forall i | 0 <= i < |a.pids| ensures StopAllItemOk(s', a, i) {
      assert StopAllItemOk(s, a, i);
    }
  }

  lemma StopsKept(s: State, s': State)
    requires Shape(s) && Shape(s') && StopsInv(s) && Monotone(s, s')
    requires s'.stops == s.stops && s'.stopAlls == s.stopAlls
    ensures StopsInv(s')
  {
    forall a | 0 <= a < |s.stopAlls| ensures StopAllOk(s', s'.stopAlls[a]) {
      StopAllKept(s, s', s.stopAlls[a]);
    }
    forall k | 0 <= k < |s.stops| ensures StopOk(s'.stops[k], s'.store.procs) {
      assert StopOk(s.stops[k], s.store.procs);
    }
  }

  // ---- Start ----

  lemma LaunchKeeps(s: State, pid: int)
    requires Inv(s) && Enabled(s, Launch(pid))
    ensures Inv(Apply(s, Launch(pid)))
  {
    var s' := Apply(s, Launch(pid));
    StopsKept(s, s');
    TailsKept(s, s');
    forall p | 0 <= p < |s'.lives| ensures PidOk(s', p) {
      assert PidOk(s, p);
    }
    forall p, b | 0 <= p < |s'.lives| ensures FileOk(s', p, b) {
      assert PidOk(s, p) && FileOk(s, p, b);
    }
  }

  lemma CreateLogKeeps(s: State, pid: int, b: bool, ok: bool, next: StartPc)
    requires Inv(s) && pid in s.starting
    requires (b && s.starting[pid].NeedStdoutLog? && next == NeedStderrLog)
          || (!b && s.starting[pid].NeedStderrLog? && next == NeedRegister)
    ensures Inv(DoCreateLog(s, pid, b, ok, next))
  {
    var s' := DoCreateLog(s, pid, b, ok, next);
    StopsKept(s, s');
    TailsKept(s, s');
    forall p | 0 <= p < |s'.lives| ensures PidOk(s', p) {
      assert PidOk(s, p);
    }
    forall p, b' | 0 <= p < |s'.lives| ensures FileOk(s', p, b') {
      assert PidOk(s, p) && FileOk(s, p, b');
    }
  }

  lemma RegisterPids(s: State, pid: int)
    requires Inv(s) && Enabled(s, RegisterProc(pid))
    ensures Shape(DoRegister(s, pid)) && PidsInv(DoRegister(s, pid))
  {
    var s' := DoRegister(s, pid);
    assert Shape(s');
    forall p | 0 <= p < |s'.lives| ensures PidOk(s', p) {
      if p < |s.lives| {
        assert PidOk(s, p);
      }
    }
    forall p, b | 0 <= p < |s'.lives| ensures FileOk(s', p, b) {
      if p < |s.lives| {
        assert PidOk(s, p) && FileOk(s, p, b);
      }
    }
  }

  lemma RegisterProcs(s: State, pid: int)
    requires CoreInv(s) && Shape(DoRegister(s, pid))
    ensures ProcsInv(DoRegister(s, pid))
  {
    var s' := DoRegister(s, pid);
    forall p | 0 <= p < |s'.lives|
      ensures LifeOk(s'.store.procs[p], s'.lives[p]) && SubsOk(p, s'.store.procs[p], s'.store.chans, s'.tails)
    {
      if p < |s.lives| {
        assert LifeOk(s.store.procs[p], s.lives[p]) && SubsOk(p, s.store.procs[p], s.store.chans, s.tails);
      }
    }
  }

  lemma RegisterTails(s: State, pid: int)
    requires CoreInv(s) && Shape(DoRegister(s, pid))
    ensures TailsInv(DoRegister(s, pid))
  {
    forall c | 0 <= c < |s.tails| ensures TailAt(DoRegister(s, pid), c) {
      assert TailAt(s, c);
    }
  }

  lemma RegisterKeeps(s: State, pid: int)
    requires Inv(s) && Enabled(s, RegisterProc(pid))
    ensures Inv(DoRegister(s, pid))
  {
    RegisterPids(s, pid);
    RegisterProcs(s, pid);
    RegisterTails(s, pid);
    StopsKept(s, DoRegister(s, pid));
  }

  // ---- pipeReader ----

  lemma LinesAppend(fan: seq<TailEvent>, e: TailEvent, b: bool)
    ensures Lines(fan + [e], b) == Lines(fan, b) + if e.stdout == b then [e.line] else []
  {
    assert (fan + [e])[..|fan|] == fan;
  }

  /** Steps of one reader that leave the store alone (Scan, EndOfPipe). */
  lemma ReaderKeeps(s: State, p: nat, b: bool, pc: ReaderPc)
    requires Inv(s) && p < |s.lives| && s.lives[p].At(b).pc.Scanning? && (pc.Writing? || pc.Finished?)
    ensures Inv(WithReader(s, p, b, s.lives[p].At(b).(pc := pc)))
  {
    var s' := WithReader(s, p, b, s.lives[p].At(b).(pc := pc));
    ReaderLife(s.store.procs[p], s.lives[p], b, pc);
    ReaderProcs(s, p, b, s.lives[p].At(b).(pc := pc));
    StopsKept(s, s');
    PidsKept(s, s');
  }

  lemma ReaderProcs(s: State, p: nat, b: bool, r: Reader)
    requires Shape(s) && ProcsInv(s) && TailsInv(s) && p < |s.lives|
    requires LifeOk(s.store.procs[p], s.lives[p].Put(b, r))
    ensures Shape(WithReader(s, p, b, r)) && ProcsInv(WithReader(s, p, b, r)) && TailsInv(WithReader(s, p, b, r))
  {
    var s' := WithReader(s, p, b, r);
    TailsKept(s, s');
    ProcsKept(s, s', p);
  }

  lemma ReaderLife(pr: Proc, l: Life, b: bool, pc: ReaderPc)
    requires LifeOk(pr, l) && l.At(b).pc.Scanning? && (pc.Writing? || pc.Finished?)
    ensures LifeOk(pr, l.Put(b, l.At(b).(pc := pc)))
  {
  }

  lemma WrittenLife(pr: Proc, l: Life, b: bool)
    requires LifeOk(pr, l) && l.At(b).pc.Writing?
    ensures !l.Reaped()
    ensures LifeOk(pr, l.Put(b, Reader(Sending(l.At(b).pc.line), l.At(b).log + [l.At(b).pc.line])))
  {
  }

  /** Two readers never share a log file: the process in hand still owns its pid. */
  lemma WriteLogPids(s: State, p: nat, b: bool)
    requires Shape(s) && PidsInv(s) && p < |s.lives| && s.lives[p].At(b).pc.Writing? && !s.lives[p].Reaped()
    ensures Shape(DoWriteLog(s, p, b)) && PidsInv(DoWriteLog(s, p, b))
  {
    var s' := DoWriteLog(s, p, b);
    assert PidOk(s, p) && FileOk(s, p, b);
    forall q | 0 <= q < |s'.lives| ensures PidOk(s', q) {
      assert PidOk(s, q);
    }
    forall q, b' | 0 <= q < |s'.lives| ensures FileOk(s', q, b') {
      assert FileOk(s, q, b');
    }
  }

  lemma WriteLogProcs(s: State, p: nat, b: bool)
    requires Shape(s) && ProcsInv(s) && TailsInv(s) && p < |s.lives| && s.lives[p].At(b).pc.Writing?
    ensures Shape(DoWriteLog(s, p, b)) && ProcsInv(DoWriteLog(s, p, b)) && TailsInv(DoWriteLog(s, p, b))
  {
    var s' := DoWriteLog(s, p, b);
    WrittenLife(s.store.procs[p], s.lives[p], b);
    TailsKept(s, s');
    ProcsKept(s, s', p);
  }

  lemma WriteLogKeeps(s: State, p: nat, b: bool)
    requires Inv(s) && Enabled(s, WriteLog(p, b))
    ensures Inv(DoWriteLog(s, p, b))
  {
    var s' := DoWriteLog(s, p, b);
    WrittenLife(s.store.procs[p], s.lives[p], b);
    WriteLogPids(s, p, b);
    StopsKept(s, s');
    WriteLogProcs(s, p, b);
  }

  /** Only the `done` flags of the processes differ, if anything. */
  predicate ButDone(s: State, s': State)
    requires Shape(s)
  {
    && |s'.store.procs| == |s.store.procs|
    && forall p :: 0 <= p < |s.store.procs| ==>
         s'.store.procs[p] == s.store.procs[p].(done := s'.store.procs[p].done)
  }

  /** Only process `p` may differ, and not in its subscribers. */
  lemma ProcsKept(s: State, s': State, p: nat)
    requires Shape(s) && Shape(s') && ProcsInv(s) && ButDone(s, s')
    requires s'.store.chans == s.store.chans && s'.tails == s.tails
    requires forall q :: 0 <= q < |s.lives| && q != p ==>
      s'.store.procs[q] == s.store.procs[q] && s'.lives[q] == s.lives[q]
    requires p < |s.lives| ==> LifeOk(s'.store.procs[p], s'.lives[p])
    ensures ProcsInv(s')
  {
    forall q | 0 <= q < |s'.lives|
      ensures LifeOk(s'.store.procs[q], s'.lives[q]) && SubsOk(q, s'.store.procs[q], s'.store.chans, s'.tails) {
      assert LifeOk(s.store.procs[q], s.lives[q]) && SubsOk(q, s.store.procs[q], s.store.chans, s.tails);
    }
  }

  /** The tails see a process only through its `Proc` cell and its fan-out history. */
  lemma TailsKept(s: State, s': State)
    requires Shape(s) && Shape(s') && TailsInv(s) && ButDone(s, s')
    requires s'.store.chans == s.store.chans && s'.tails == s.tails
    requires forall p :: 0 <= p < |s.lives| ==> s'.lives[p].fan == s.lives[p].fan
    ensures TailsInv(s')
  {
    forall c | 0 <= c < |s'.tails| ensures TailAt(s', c) {
      assert TailAt(s, c);
    }
  }

  /** Pids, registry and files are untouched, and so are the logs. */
  lemma PidsKept(s: State, s': State)
    requires Shape(s) && Shape(s') && PidsInv(s)
    requires s'.store.registry == s.store.registry && |s'.store.procs| == |s.store.procs|
    requires s'.starting == s.starting && s'.osPids == s.osPids && s'.files == s.files
    requires forall p :: 0 <= p < |s.lives| ==>
      && s'.store.procs[p].pid == s.store.procs[p].pid
      && s'.lives[p].Reaped() == s.lives[p].Reaped()
      && s'.lives[p].out.log == s.lives[p].out.log && s'.lives[p].err.log == s.lives[p].err.log
    ensures PidsInv(s')
  {
    forall p | 0 <= p < |s'.lives| ensures PidOk(s', p) {
      assert PidOk(s, p);
    }
    forall p, b | 0 <= p < |s'.lives| ensures FileOk(s', p, b) {
      assert FileOk(s, p, b);
    }
  }

  lemma OfferedTail(c: nat, ch: Chan, t: Tail, pr: Proc, fan: seq<TailEvent>, e: TailEvent)
    requires TailOk(c, ch, t, pr, fan) && c in pr.subs && !ch.closed
    ensures var full := |ch.buf| >= SUBSCRIBER_SLOTS;
      TailOk(c, Offer(ch, e), if full then t.(dropped := t.dropped + 1) else t, pr, fan + [e])
  {
    SuffixAppend(fan, t.start, e);
    if |ch.buf| >= SUBSCRIBER_SLOTS {
      SubseqAppendRight(t.received + ch.buf, fan[t.start..], e);
    } else {
      SubseqAppendBoth(t.received + ch.buf, fan[t.start..], e);
      Assoc(t.received, ch.buf, [e]);
    }
  }

  lemma SuffixAppend(fan: seq<TailEvent>, start: nat, e: TailEvent)
    requires start <= |fan|
    ensures (fan + [e])[start..] == fan[start..] + [e]
  {
  }

  lemma SkippedTail(c: nat, ch: Chan, t: Tail, pr: Proc, fan: seq<TailEvent>, e: TailEvent)
    requires TailOk(c, ch, t, pr, fan) && c !in pr.subs && pr.status.Running?
    ensures TailOk(c, ch, t, pr, fan + [e])
  {
    SuffixAppend(fan, t.start, e);
    SubseqAppendRight(t.received + ch.buf, fan[t.start..], e);
  }

  lemma FanOutFrame(s: State, p: nat, b: bool)
    requires CoreInv(s) && Enabled(s, FanOutLine(p, b))
    ensures var s' := DoFanOut(s, p, b);
      && Shape(s') && !s'.store.panicked
      && s'.store.registry == s.store.registry && s'.store.procs == s.store.procs
      && |s'.lives| == |s.lives|
      && forall q :: 0 <= q < |s.lives| ==>
           && s'.lives[q].Reaped() == s.lives[q].Reaped()
           && s'.lives[q].out.log == s.lives[q].out.log && s'.lives[q].err.log == s.lives[q].err.log
    ensures var s' := DoFanOut(s, p, b);
      && |s'.store.chans| == |s.store.chans| == |s'.tails|
      && forall c :: 0 <= c < |s.store.chans| ==>
           s'.store.chans[c] ==
             if c in s.store.procs[p].subs then Offer(s.store.chans[c], TailEvent(b, s.lives[p].At(b).pc.line))
             else s.store.chans[c]
  {
    var pr := s.store.procs[p];
    assert SubsOk(p, pr, s.store.chans, s.tails);
    SendAllPointwise(s.store, pr.subs, TailEvent(b, s.lives[p].At(b).pc.line));
  }

  lemma FanOutTails(s: State, p: nat, b: bool)
    requires CoreInv(s) && Enabled(s, FanOutLine(p, b))
    ensures Shape(DoFanOut(s, p, b)) && TailsInv(DoFanOut(s, p, b))
  {
    var s' := DoFanOut(s, p, b);
    var e := TailEvent(b, s.lives[p].At(b).pc.line);
    var pr := s.store.procs[p];
    assert LifeOk(pr, s.lives[p]) && SubsOk(p, pr, s.store.chans, s.tails);
    FanOutFrame(s, p, b);
    forall c | 0 <= c < |s'.tails| ensures TailAt(s', c) {
      var t, ch := s.tails[c], s.store.chans[c];
      assert TailAt(s, c);
      if c in pr.subs {
        OfferedTail(c, ch, t, pr, s.lives[p].fan, e);
      } else if t.proc == p {
        SkippedTail(c, ch, t, pr, s.lives[p].fan, e);
      }
    }
  }

  lemma FannedOutLife(pr: Proc, l: Life, b: bool)
    requires LifeOk(pr, l) && l.At(b).pc.Sending?
    ensures var e := TailEvent(b, l.At(b).pc.line);
      LifeOk(pr, l.Put(b, l.At(b).(pc := Scanning)).(fan := l.fan + [e]))
  {
    var e := TailEvent(b, l.At(b).pc.line);
    LinesAppend(l.fan, e, true);
    LinesAppend(l.fan, e, false);
  }

  lemma FanOutSubs(s: State, p: nat, b: bool)
    requires CoreInv(s) && Enabled(s, FanOutLine(p, b))
    ensures var s' := DoFanOut(s, p, b);
      && Shape(s') && !s'.store.panicked
      && forall q :: 0 <= q < |s'.lives| ==> SubsOk(q, s'.store.procs[q], s'.store.chans, s'.tails)
  {
    var s' := DoFanOut(s, p, b);
    FanOutFrame(s, p, b);
    forall q | 0 <= q < |s'.lives| ensures SubsOk(q, s'.store.procs[q], s'.store.chans, s'.tails) {
      assert SubsOk(q, s.store.procs[q], s.store.chans, s.tails);
    }
  }

  lemma FanOutProcs(s: State, p: nat, b: bool)
    requires CoreInv(s) && Enabled(s, FanOutLine(p, b))
    ensures Shape(DoFanOut(s, p, b)) && !DoFanOut(s, p, b).store.panicked && ProcsInv(DoFanOut(s, p, b))
  {
    var s' := DoFanOut(s, p, b);
    FanOutFrame(s, p, b);
    FanOutSubs(s, p, b);
    FannedOutLife(s.store.procs[p], s.lives[p], b);
    forall q | 0 <= q < |s'.lives| ensures LifeOk(s'.store.procs[q], s'.lives[q]) {
      assert LifeOk(s.store.procs[q], s.lives[q]);
    }
  }

  lemma FanOutKeeps(s: State, p: nat, b: bool)
    requires Inv(s) && Enabled(s, FanOutLine(p, b))
    ensures Inv(DoFanOut(s, p, b))
  {
    var s' := DoFanOut(s, p, b);
    FanOutTails(s, p, b);
    FanOutProcs(s, p, b);
    FanOutFrame(s, p, b);
    StopsKept(s, s');
    PidsKept(s, s');
  }

  // ---- waitForExit ----

  lemma ReapKeeps(s: State, p: nat, wait: WaitResult)
    requires Inv(s) && Enabled(s, Reap(p, wait))
    ensures Inv(DoReap(s, p, wait))
  {
    var s' := DoReap(s, p, wait);
    StopsKept(s, s');
    TailsKept(s, s');
    ReapPids(s, p, wait);
    assert LifeOk(s.store.procs[p], s.lives[p]);
    ProcsKept(s, s', p);
  }

  /** The kernel may reuse the pid from here on; the log files stay those of `p` until it does. */
  lemma ReapPids(s: State, p: nat, wait: WaitResult)
    requires Inv(s) && Enabled(s, Reap(p, wait))
    ensures PidsInv(DoReap(s, p, wait))
  {
    var s' := DoReap(s, p, wait);
    assert PidOk(s, p);
    forall q | 0 <= q < |s'.lives| ensures PidOk(s', q) {
      assert PidOk(s, q);
    }
    forall q, b | 0 <= q < |s'.lives| ensures FileOk(s', q, b) {
      assert FileOk(s, q, b);
      assert FileOk(s, p, b);
    }
  }

  lemma ClosedTail(c: nat, ch: Chan, t: Tail, pr: Proc, pr': Proc, fan: seq<TailEvent>)
    requires TailOk(c, ch, t, pr, fan) && pr.status.Running? && pr.exitCode == None
    requires pr'.status.Exited? && pr'.subs == []
    ensures TailOk(c, if c in pr.subs then ch.(closed := true) else ch, t, pr', fan)
  {
  }

  lemma MarkExitedFrame(s: State, p: nat)
    requires CoreInv(s) && Enabled(s, MarkProcExited(p))
    ensures var s' := DoMarkExited(s, p);
      && !s'.store.panicked && Shape(s')
      && s'.store.registry == s.store.registry
      && s'.store.procs == s.store.procs[p := s.store.procs[p].(
           status := Exited, exitCode := Some(s.lives[p].waiter.code), subs := [])]
      && forall c :: 0 <= c < |s.store.chans| ==>
           s'.store.chans[c] ==
             if c in s.store.procs[p].subs then s.store.chans[c].(closed := true) else s.store.chans[c]
  {
    assert SubsOk(p, s.store.procs[p], s.store.chans, s.tails);
    MarkExitedPointwise(s.store, p, s.lives[p].waiter.code);
  }

  lemma MarkExitedTails(s: State, p: nat)
    requires CoreInv(s) && Enabled(s, MarkProcExited(p))
    ensures Shape(DoMarkExited(s, p)) && TailsInv(DoMarkExited(s, p))
  {
    var s' := DoMarkExited(s, p);
    MarkExitedFrame(s, p);
    var pr := s.store.procs[p];
    assert LifeOk(pr, s.lives[p]) && SubsOk(p, pr, s.store.chans, s.tails);
    forall c | 0 <= c < |s'.tails| ensures TailAt(s', c) {
      var t := s.tails[c];
      assert TailAt(s, c);
      if t.proc == p {
        ClosedTail(c, s.store.chans[c], t, pr, s'.store.procs[p], s.lives[p].fan);
      }
    }
  }

  lemma MarkExitedProcs(s: State, p: nat)
    requires CoreInv(s) && Enabled(s, MarkProcExited(p))
    ensures Shape(DoMarkExited(s, p)) && ProcsInv(DoMarkExited(s, p))
  {
    var s' := DoMarkExited(s, p);
    MarkExitedFrame(s, p);
    forall q | 0 <= q < |s'.lives| ensures LifeOk(s'.store.procs[q], s'.lives[q]) {
      assert LifeOk(s.store.procs[q], s.lives[q]);
    }
    forall q | 0 <= q < |s'.lives| ensures SubsOk(q, s'.store.procs[q], s'.store.chans, s'.tails) {
      assert SubsOk(q, s.store.procs[q], s.store.chans, s.tails);
      assert SubsOk(p, s.store.procs[p], s.store.chans, s.tails);
    }
  }

  lemma MarkExitedKeeps(s: State, p: nat)
    requires Inv(s) && Enabled(s, MarkProcExited(p))
    ensures Inv(DoMarkExited(s, p))
  {
    var s' := DoMarkExited(s, p);
    MarkExitedFrame(s, p);
    MarkExitedTails(s, p);
    MarkExitedProcs(s, p);
    StopsKept(s, s');
    PidsKept(s, s');
  }

  lemma CloseDoneProcs(s: State, p: nat)
    requires CoreInv(s) && Enabled(s, CloseProcDone(p))
    ensures var s' := DoCloseDone(s, p);
      && s'.store == s.store.(procs := s.store.procs[p := s.store.procs[p].(done := true)])
      && Shape(s') && ProcsInv(s') && TailsInv(s')
  {
    var s' := DoCloseDone(s, p);
    DoneLife(s.store.procs[p], s.lives[p]);
    TailsKept(s, s');
    ProcsKept(s, s', p);
  }

  lemma CloseDoneKeeps(s: State, p: nat)
    requires Inv(s) && Enabled(s, CloseProcDone(p))
    ensures Inv(DoCloseDone(s, p))
  {
    var s' := DoCloseDone(s, p);
    CloseDoneProcs(s, p);
    StopsKept(s, s');
    PidsKept(s, s');
  }

  lemma DoneLife(pr: Proc, l: Life)
    requires LifeOk(pr, l) && l.waiter.HasMarked?
    ensures !pr.done && LifeOk(pr.(done := true), l.(waiter := WaiterDone(l.waiter.code)))
  {
  }

  // ---- Tail ----

  lemma SubscribedTail(c: nat, pr: Proc, fan: seq<TailEvent>)
    requires c in pr.subs
    ensures TailOk(c, Chan([], false), Tail(0, |fan|, [], 0, 0, [], Selecting), pr, fan)
  {
    assert Msgs([]) == [];
  }

  lemma CallTailLives(s: State, pid: int)
    requires CoreInv(s) && Find(s.store, pid).Live?
    ensures var s' := DoCallTail(s, pid);
      Shape(s') && forall q :: 0 <= q < |s'.lives| ==> LifeOk(s'.store.procs[q], s'.lives[q])
  {
    SubscribeShape(s.store, Find(s.store, pid).proc);
    forall q | 0 <= q < |s.lives| ensures LifeOk(DoCallTail(s, pid).store.procs[q], s.lives[q]) {
      assert LifeOk(s.store.procs[q], s.lives[q]);
    }
  }

  lemma CallTailSubs(s: State, pid: int)
    requires CoreInv(s) && Find(s.store, pid).Live? && Shape(DoCallTail(s, pid))
    ensures var s' := DoCallTail(s, pid);
      forall q :: 0 <= q < |s'.lives| ==> SubsOk(q, s'.store.procs[q], s'.store.chans, s'.tails)
  {
    var s' := DoCallTail(s, pid);
    forall q | 0 <= q < |s'.lives| ensures SubsOk(q, s'.store.procs[q], s'.store.chans, s'.tails) {
      assert SubsOk(q, s.store.procs[q], s.store.chans, s.tails);
    }
  }

  lemma CallTailTails(s: State, pid: int)
    requires CoreInv(s) && Find(s.store, pid).Live? && Shape(DoCallTail(s, pid))
    ensures TailsInv(DoCallTail(s, pid))
  {
    var s' := DoCallTail(s, pid);
    var p := Find(s.store, pid).proc;
    forall c | 0 <= c < |s'.tails| ensures TailAt(s', c) {
      if c < |s.tails| {
        assert TailAt(s, c);
        assert c in s'.store.procs[p].subs <==> c in s.store.procs[p].subs;
      } else {
        assert s'.store.procs[p].subs[|s.store.procs[p].subs|] == c;
        SubscribedTail(c, s'.store.procs[p], s.lives[p].fan);
      }
    }
  }

  lemma CallTailKeeps(s: State, pid: int)
    requires Inv(s)
    ensures Inv(DoCallTail(s, pid))
  {
    if Find(s.store, pid).Live? {
      var s' := DoCallTail(s, pid);
      CallTailLives(s, pid);
      CallTailSubs(s, pid);
      CallTailTails(s, pid);
      StopsKept(s, s');
      PidsKept(s, s');
    }
  }

  /** Steps that change one Tail call, and its buffer, but neither `proc` nor which channels are open. */
  lemma OneTailKeeps(s: State, c: nat, t: Tail, buf: seq<TailEvent>)
    requires Inv(s) && c < |s.tails| && t.proc == s.tails[c].proc
    requires TailOk(c, s.store.chans[c].(buf := buf), t, s.store.procs[t.proc], s.lives[t.proc].fan)
    ensures var st := s.store.(chans := s.store.chans[c := s.store.chans[c].(buf := buf)]);
      Inv(WithTail(s, c, t).(store := st))
  {
    var st := s.store.(chans := s.store.chans[c := s.store.chans[c].(buf := buf)]);
    var s' := WithTail(s, c, t).(store := st);
    assert Shape(s');
    StopsKept(s, s');
    PidsKept(s, s');
    forall q | 0 <= q < |s'.lives| ensures SubsOk(q, s'.store.procs[q], s'.store.chans, s'.tails) {
      assert SubsOk(q, s.store.procs[q], s.store.chans, s.tails);
    }
    forall d | 0 <= d < |s'.tails| ensures TailAt(s', d) {
      assert TailAt(s, d);
    }
  }

  lemma MsgsAppend(events: seq<TailEvent>, e: TailEvent)
    ensures Msgs(events + [e]) == Msgs(events) + [LineMsg(e)]
  {
  }

  lemma ReceivedTail(c: nat, ch: Chan, t: Tail, pr: Proc, fan: seq<TailEvent>)
    requires TailOk(c, ch, t, pr, fan) && t.pc.Selecting? && ch.buf != []
    ensures var e := ch.buf[0];
      TailOk(c, ch.(buf := ch.buf[1..]),
             t.(received := t.received + [e], receives := t.receives + 1, pc := Holding(e)), pr, fan)
  {
    var e := ch.buf[0];
    assert t.received + [e] + ch.buf[1..] == t.received + ch.buf;
    assert (t.received + [e])[..|t.received|] == t.received;
  }

  lemma SentTail(c: nat, ch: Chan, t: Tail, pr: Proc, fan: seq<TailEvent>, ok: bool)
    requires TailOk(c, ch, t, pr, fan) && t.pc.Holding?
    ensures TailOk(c, ch, NextTail(t, ch.buf, pr.exitCode, SendLine(c, ok)), pr, fan)
  {
    assert t.received == t.received[..|t.received| - 1] + [t.pc.event];
    MsgsAppend(t.received[..|t.received| - 1], t.pc.event);
  }

  /** In the case of ReadExitCode the channel is closed, so the exit code has been recorded: the fallback is
      not taken. */
  lemma NextTailOk(c: nat, ch: Chan, t: Tail, pr: Proc, l: Life, step: Step)
    requires TailOk(c, ch, t, pr, l.fan) && LifeOk(pr, l) && OwnStep(step)
    requires (step.CancelTail? ==> t.pc.Selecting?) && (step.SendLine? ==> t.pc.Holding?)
    requires (step.ReceiveEvent? ==> t.pc.Selecting? && (ch.buf != [] || ch.closed))
    requires (step.ReadExitCode? ==> t.pc.SawClose?) && (step.SendExit? ==> t.pc.HasCode?)
    ensures TailOk(c, ch.(buf := NextBuf(ch.buf, step)), NextTail(t, ch.buf, pr.exitCode, step), pr, l.fan)
  {
    match step {
      case ReceiveEvent(_) => if ch.buf != [] { ReceivedTail(c, ch, t, pr, l.fan); }
      case SendLine(_, ok) => SentTail(c, ch, t, pr, l.fan, ok);
      case SendExit(_, ok) => assert t.sent + [] == t.sent;
      case _ =>
    }
  }

  lemma OwnStepKeeps(s: State, step: Step)
    requires Inv(s) && OwnStep(step) && Enabled(s, step)
    ensures Inv(DoOwnStep(s, step))
  {
    var c := step.c;
    var t, ch := s.tails[c], s.store.chans[c];
    var pr, l := s.store.procs[t.proc], s.lives[t.proc];
    assert TailAt(s, c) && LifeOk(pr, l);
    NextTailOk(c, ch, t, pr, l, step);
    OneTailKeeps(s, c, NextTail(t, ch.buf, pr.exitCode, step), NextBuf(ch.buf, step));
  }

  // ---- removeSubscriber ----

  /** The lookup finds the tailed process or a younger one; in a younger one the channel is absent,
      and the older one, already reaped, will never send on the channel it keeps. */
  lemma RemoveSubs(s: State, pid: int, c: nat)
    requires CoreInv(s) && c < |s.tails|
    ensures StoreShape(RemoveSubscriber(s.store, pid, c))
    ensures var procs := RemoveSubscriber(s.store, pid, c).procs;
      && |procs| == |s.store.procs|
      && forall q :: 0 <= q < |procs| ==>
           && procs[q] == s.store.procs[q].(subs := procs[q].subs)
           && LifeOk(procs[q], s.lives[q])
           && SubsOk(q, procs[q], s.store.chans, s.tails)
           && (forall d :: d != c ==> (d in procs[q].subs <==> d in s.store.procs[q].subs))
  {
    forall q | 0 <= q < |s.lives|
      ensures LifeOk(s.store.procs[q], s.lives[q]) && SubsOk(q, s.store.procs[q], s.store.chans, s.tails) {}
    if pid in s.store.registry {
      var p := s.store.registry[pid];
      assert SubsOk(p, s.store.procs[p], s.store.chans, s.tails);
      WithoutFacts(s.store.procs[p].subs, c);
      var r := Without(s.store.procs[p].subs, c);
      forall i | 0 <= i < |r| ensures !s.store.chans[r[i]].closed && s.tails[r[i]].proc == p {
        assert r[i] in r;
      }
    }
  }

  lemma LeftTail(c: nat, ch: Chan, t: Tail, pr: Proc, pr': Proc, fan: seq<TailEvent>)
    requires TailOk(c, ch, t, pr, fan) && pr' == pr.(subs := pr'.subs)
    requires c in pr'.subs ==> c in pr.subs
    ensures t.pc.Leaving? ==> TailOk(c, ch, t.(pc := Left(t.pc.outcome)), pr', fan)
    ensures (c in pr.subs ==> c in pr'.subs) ==> TailOk(c, ch, t, pr', fan)
  {
  }

  lemma UnsubscribeKeeps(s: State, c: nat)
    requires Inv(s) && Enabled(s, Unsubscribe(c))
    ensures Inv(DoUnsubscribe(s, c))
  {
    var s' := DoUnsubscribe(s, c);
    RemoveSubs(s, s.store.procs[s.tails[c].proc].pid, c);
    assert Shape(s');
    StopsKept(s, s');
    PidsKept(s, s');
    UnsubscribeTails(s, c);
    UnsubscribeSubs(s, c);
  }

  lemma UnsubscribeSubs(s: State, c: nat)
    requires CoreInv(s) && Enabled(s, Unsubscribe(c)) && Shape(DoUnsubscribe(s, c))
    ensures var s' := DoUnsubscribe(s, c);
      forall q :: 0 <= q < |s'.lives| ==> SubsOk(q, s'.store.procs[q], s'.store.chans, s'.tails)
  {
    var s' := DoUnsubscribe(s, c);
    RemoveSubs(s, s.store.procs[s.tails[c].proc].pid, c);
    forall q | 0 <= q < |s'.lives| ensures SubsOk(q, s'.store.procs[q], s'.store.chans, s'.tails) {
      assert SubsOk(q, s'.store.procs[q], s.store.chans, s.tails);
    }
  }

  lemma UnsubscribeTails(s: State, c: nat)
    requires CoreInv(s) && Enabled(s, Unsubscribe(c)) && Shape(DoUnsubscribe(s, c))
    ensures TailsInv(DoUnsubscribe(s, c))
  {
    var s' := DoUnsubscribe(s, c);
    RemoveSubs(s, s.store.procs[s.tails[c].proc].pid, c);
    forall d | 0 <= d < |s'.tails| ensures TailAt(s', d) {
      var t := s.tails[d];
      assert SubsOk(t.proc, s'.store.procs[t.proc], s.store.chans, s.tails);
      LeftSubs(s, c, t.proc);
      assert TailAt(s, d);
      LeftTail(d, s.store.chans[d], t, s.store.procs[t.proc], s'.store.procs[t.proc], s.lives[t.proc].fan);
    }
  }

  lemma LeftSubs(s: State, c: nat, q: nat)
    requires CoreInv(s) && Enabled(s, Unsubscribe(c)) && q < |s.lives|
    ensures var pid := s.store.procs[s.tails[c].proc].pid;
      forall d :: d in RemoveSubscriber(s.store, pid, c).procs[q].subs ==> d in s.store.procs[q].subs
  {
    var pid := s.store.procs[s.tails[c].proc].pid;
    if pid in s.store.registry {
      var p := s.store.registry[pid];
      assert SubsOk(p, s.store.procs[p], s.store.chans, s.tails);
      WithoutFacts(s.store.procs[p].subs, c);
    }
  }

  // ---- Stop and StopAll ----

  /** Only Stop and StopAll calls have changed, as the invariant allows. */
  predicate StopsMove(s: State, s': State) {
    s' == s.(stops := s'.stops, stopAlls := s'.stopAlls) && Shape(s') && StopsInv(s')
  }

  lemma OnlyStops(s: State, s': State)
    requires Inv(s) && StopsMove(s, s')
    ensures Inv(s')
  {
    PidsKept(s, s');
    TailsKept(s, s');
    ProcsKept(s, s', |s.lives|);
  }

  lemma BeginStopOk(st: Store, pid: int)
    requires StoreShape(st) && RegistryOk(st)
    ensures var call := BeginStop(st, pid);
      && call.pid == pid
      && (call.proc.Some? ==> call.proc.value < |st.procs|)
      && StopOk(call, st.procs)
      && (call.proc.Some? <==> pid in st.registry)
      && (pid in st.registry ==> call.proc == Some(st.registry[pid]))
  {
  }

  lemma CallStopKeeps(s: State, pid: int)
    requires Shape(s) && PidsInv(s) && StopsInv(s)
    ensures StopsMove(s, s.(stops := s.stops + [BeginStop(s.store, pid)]))
  {
    var s' := s.(stops := s.stops + [BeginStop(s.store, pid)]);
    BeginStopOk(s.store, pid);
    assert Shape(s');
    forall a | 0 <= a < |s'.stopAlls| ensures StopAllOk(s', s'.stopAlls[a]) {
      StopAllKept(s, s', s.stopAlls[a]);
    }
  }

  lemma StopPcKeeps(s: State, k: nat, pc: StopPc)
    requires Shape(s) && StopsInv(s) && k < |s.stops| && !s.stops[k].pc.StopReturned? && s.stops[k].proc.Some?
    requires pc.StopReturned? ==>
      (pc.result.KillFailed? || (pc.result.Stopped? && s.store.procs[s.stops[k].proc.value].done))
    ensures StopsMove(s, WithStop(s, k, pc))
  {
    var s' := WithStop(s, k, pc);
    assert Shape(s');
    assert StopOk(s.stops[k], s.store.procs);
    forall a | 0 <= a < |s'.stopAlls| ensures StopAllOk(s', s'.stopAlls[a]) {
      StopAllKept(s, s', s.stopAlls[a]);
    }
  }

  lemma SnapshotKeeps(s: State, pids: seq<int>)
    requires Shape(s) && PidsInv(s) && StopsInv(s) && IsSnapshot(s.store, pids)
    ensures StopsMove(s, DoSnapshotAll(s, pids))
  {
    var s' := DoSnapshotAll(s, pids);
    assert forall pid :: pid in pids ==> pid in s.store.registry;
    forall i | 0 <= i < |pids|
      ensures pids[i] in s.store.registry && s.store.registry[pids[i]] < |s.lives|
    {
      var pid := pids[i];
      assert pid in pids;
    }
    assert StopAllShape(s'.stopAlls[|s.stopAlls|], |s.lives|, |s.stops|);
    assert Shape(s');
    forall a | 0 <= a < |s'.stopAlls| ensures StopAllOk(s', s'.stopAlls[a]) {
      if a < |s.stopAlls| {
        StopAllKept(s, s', s.stopAlls[a]);
      }
    }
  }

  /** A goroutine of StopAll looks its pid up again. If it finds another process than the snapshot
      did, the snapshot's process has been reaped: an unreaped process owns its registry entry. */
  lemma StopOneKeeps(s: State, a: nat, i: nat)
    requires Shape(s) && PidsInv(s) && StopsInv(s) && Enabled(s, StopOne(a, i))
    ensures StopsMove(s, DoStopOne(s, a, i))
  {
    var s' := DoStopOne(s, a, i);
    var call := s.stopAlls[a];
    BeginStopOk(s.store, call.pids[i]);
    assert Shape(s');
    BegunItemOk(s, a, i);
    forall a' | 0 <= a' < |s'.stopAlls| ensures StopAllOk(s', s'.stopAlls[a']) {
      if a' != a {
        StopAllKept(s, s', s.stopAlls[a']);
      }
    }
  }

  lemma BegunItemOk(s: State, a: nat, i: nat)
    requires Shape(s) && PidsInv(s) && StopsInv(s)
    requires Enabled(s, StopOne(a, i)) && Shape(DoStopOne(s, a, i))
    ensures StopAllOk(DoStopOne(s, a, i), DoStopOne(s, a, i).stopAlls[a])
  {
    var s' := DoStopOne(s, a, i);
    var call := s.stopAlls[a];
    BeginStopOk(s.store, call.pids[i]);
    assert StopAllOk(s, call);
    assert PidOk(s, call.snapshot[i]);
    forall j | 0 <= j < |call.pids| ensures StopAllItemOk(s', s'.stopAlls[a], j) {
      assert StopAllItemOk(s, call, j);
    }
  }

  lemma JoinAllKeeps(s: State, a: nat)
    requires Shape(s) && StopsInv(s) && Enabled(s, JoinAll(a))
    ensures StopsMove(s, s.(stopAlls := s.stopAlls[a := s.stopAlls[a].(returned := true)]))
  {
    var s' := s.(stopAlls := s.stopAlls[a := s.stopAlls[a].(returned := true)]);
    assert Shape(s');
    forall a' | 0 <= a' < |s'.stopAlls| ensures StopAllOk(s', s'.stopAlls[a']) {
      if a' == a {
        assert StopAllOk(s, s.stopAlls[a]);
        forall j | 0 <= j < |s.stopAlls[a].pids| ensures StopAllItemOk(s', s'.stopAlls[a], j) {
          assert StopAllItemOk(s, s.stopAlls[a], j);
        }
      } else {
        StopAllKept(s, s', s.stopAlls[a']);
      }
    }
  }

  lemma StopStepMoves(s: State, step: Step)
    requires Shape(s) && PidsInv(s) && StopsInv(s) && Enabled(s, step) && OfStop(step)
    ensures StopsMove(s, Apply(s, step))
  {
    match step {
      case CallStop(pid) => CallStopKeeps(s, pid);
      case SendTerm(k, ok) => StopPcKeeps(s, k, if ok then InGrace else StopReturned(KillFailed));
      case GraceOver(k) => StopPcKeeps(s, k, SendingKill);
      case SendKill(k, ok) => StopPcKeeps(s, k, if ok then AwaitingDone else StopReturned(KillFailed));
      case SeeDone(k) => StopPcKeeps(s, k, StopReturned(Stopped));
      case SnapshotAll(pids) => SnapshotKeeps(s, pids);
      case StopOne(a, i) => StopOneKeeps(s, a, i);
      case JoinAll(a) => JoinAllKeeps(s, a);
    }
  }

  // ---- every step ----

  lemma StartStepKeeps(s: State, step: Step)
    requires Inv(s) && Enabled(s, step) && OfStart(step)
    ensures Inv(Apply(s, step))
  {
    match step {
      case Launch(pid) => LaunchKeeps(s, pid);
      case CreateStdoutLog(pid, ok) => CreateLogKeeps(s, pid, true, ok, NeedStderrLog);
      case CreateStderrLog(pid, ok) => CreateLogKeeps(s, pid, false, ok, NeedRegister);
      case RegisterProc(pid) => RegisterKeeps(s, pid);
    }
  }

  lemma ReaderStepKeeps(s: State, step: Step)
    requires Inv(s) && Enabled(s, step) && OfReader(step)
    ensures Inv(Apply(s, step))
  {
    match step {
      case Scan(p, b, line) => ReaderKeeps(s, p, b, Writing(line));
      case WriteLog(p, b) => WriteLogKeeps(s, p, b);
      case FanOutLine(p, b) => FanOutKeeps(s, p, b);
      case EndOfPipe(p, b) => ReaderKeeps(s, p, b, Finished);
    }
  }

  lemma WaiterStepKeeps(s: State, step: Step)
    requires Inv(s) && Enabled(s, step) && OfWaiter(step)
    ensures Inv(Apply(s, step))
  {
    match step {
      case Reap(p, wait) => ReapKeeps(s, p, wait);
      case MarkProcExited(p) => MarkExitedKeeps(s, p);
      case CloseProcDone(p) => CloseDoneKeeps(s, p);
    }
  }

  /** The invariant is inductive: every step of every goroutine keeps it. */
  lemma StepKeepsInv(s: State, step: Step)
    requires Inv(s) && Enabled(s, step)
    ensures Inv(Apply(s, step))
  {
    if OfStart(step) {
      StartStepKeeps(s, step);
    } else if OfReader(step) {
      ReaderStepKeeps(s, step);
    } else if OfWaiter(step) {
      WaiterStepKeeps(s, step);
    } else if OwnStep(step) {
      OwnStepKeeps(s, step);
    } else if step.CallTail? {
      CallTailKeeps(s, step.pid);
    } else if step.Unsubscribe? {
      UnsubscribeKeeps(s, step.c);
    } else {
      StopStepMoves(s, step);
      OnlyStops(s, Apply(s, step));
    }
  }
}
