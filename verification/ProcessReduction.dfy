/** The two loops that run under `pm.mu`, taken apart: one turn sends to one subscriber, or closes one. Steps that
    need no lock can fall between two turns; they commute with the turns, and with what precedes and follows the
    loop. */
module ProcessReduction {
  import opened Basics
  import opened ProcessStore
  import opened ProcessProtocol

  // ---- what needs no lock ----

  /** Steps of a Tail that touch its channel and its own variables only. */
  predicate TailOnly(x: Step) {
    x.CancelTail? || x.ReceiveEvent? || x.SendLine? || x.SendExit?
  }

  /** Steps that touch neither a Tail nor a channel of one. */
  predicate Elsewhere(x: Step) {
    || x.Launch? || x.CreateStdoutLog? || x.CreateStderrLog? || x.Scan? || x.WriteLog? || x.EndOfPipe? || x.Reap?
    || x.CloseProcDone? || x.SendTerm? || x.GraceOver? || x.SendKill? || x.SeeDone? || x.JoinAll?
  }

  predicate LockFree(x: Step) {
    TailOnly(x) || Elsewhere(x)
  }

  predicate OfTailOnly(x: Step, c: nat) {
    TailOnly(x) && x.c == c
  }

  // ---- the two sections ----

  /** The fan-out of an event, and the end of a process. */
  datatype Kind = Fan(p: nat, event: TailEvent) | Close(p: nat)

  function StepOf(k: Kind): Step {
    match k
    case Fan(p, e) => FanOutLine(p, e.stdout)
    case Close(p) => MarkProcExited(p)
  }

  /** The goroutine is at its section, or in it. */
  predicate At(k: Kind, s: State) {
    && k.p < |s.lives| && |s.lives| == |s.store.procs|
    && match k
       case Fan(p, e) => s.lives[p].At(e.stdout).pc == Sending(e.line)
       case Close(p) => s.lives[p].waiter.HasWaited?
  }

  /** What precedes the loop. */
  function Begin(k: Kind, s: State): State
    requires At(k, s)
  {
    match k
    case Fan(_, _) => s
    case Close(p) =>
      var pr := s.store.procs[p].(status := Exited, exitCode := Some(s.lives[p].waiter.code));
      s.(store := s.store.(procs := s.store.procs[p := pr]))
  }

  /** One turn of the loop, for channel `c`: the channel, the Tail that may lose the event, and a panic. */
  function Touch(s: State, c: nat, ch: Chan, t: Tail, panics: bool): State
    requires c < |s.tails| == |s.store.chans|
  {
    s.(store := s.store.(chans := s.store.chans[c := ch], panicked := s.store.panicked || panics),
       tails := s.tails[c := t])
  }

  function NextChan(k: Kind, ch: Chan): Chan {
    if ch.closed then ch
    else
      match k
      case Fan(_, e) => Offer(ch, e)
      case Close(_) => ch.(closed := true)
  }

  function NextDropped(k: Kind, ch: Chan, t: Tail): Tail {
    if k.Fan? && !ch.closed && |ch.buf| >= SUBSCRIBER_SLOTS then t.(dropped := t.dropped + 1) else t
  }

  function Serve(k: Kind, s: State, c: nat): State
    requires c < |s.tails| == |s.store.chans|
  {
    var ch := s.store.chans[c];
    Touch(s, c, NextChan(k, ch), NextDropped(k, ch, s.tails[c]), ch.closed)
  }

  /** What follows the loop. */
  function End(k: Kind, s: State): State
    requires At(k, s)
  {
    match k
    case Fan(p, e) =>
      var life := s.lives[p].Put(e.stdout, s.lives[p].At(e.stdout).(pc := Scanning));
      s.(lives := s.lives[p := life.(fan := life.fan + [e])])
    case Close(p) =>
      s.(store := s.store.(procs := s.store.procs[p := s.store.procs[p].(subs := [])]),
         lives := s.lives[p := s.lives[p].(waiter := HasMarked(s.lives[p].waiter.code))])
  }

  // ---- a step that needs no lock commutes with a turn of the loop ----

  predicate CanTouch(s: State, c: nat, t: Tail) {
    Shape(s) && c < |s.tails| && t.proc == s.tails[c].proc
  }

  lemma TouchShape(s: State, c: nat, ch: Chan, t: Tail, panics: bool)
    requires CanTouch(s, c, t)
    ensures Shape(Touch(s, c, ch, t, panics))
  {
  }

  /** A step elsewhere does the same before and after. */
  predicate Commutes(s: State, c: nat, ch: Chan, t: Tail, panics: bool, x: Step)
    requires CanTouch(s, c, t)
  {
    TouchShape(s, c, ch, t, panics);
    && (Enabled(Touch(s, c, ch, t, panics), x) <==> Enabled(s, x))
    && (Enabled(s, x) ==>
          && Shape(Apply(s, x)) && Apply(s, x).tails == s.tails && Apply(s, x).store.chans == s.store.chans
          && Apply(Touch(s, c, ch, t, panics), x) == Touch(Apply(s, x), c, ch, t, panics))
  }

  lemma StartTouch(s: State, c: nat, ch: Chan, t: Tail, panics: bool, x: Step)
    requires CanTouch(s, c, t) && Elsewhere(x) && OfStart(x)
    ensures Commutes(s, c, ch, t, panics, x)
  {
    TouchShape(s, c, ch, t, panics);
  }

  lemma ReaderTouch(s: State, c: nat, ch: Chan, t: Tail, panics: bool, x: Step)
    requires CanTouch(s, c, t) && Elsewhere(x) && OfReader(x)
    ensures Commutes(s, c, ch, t, panics, x)
  {
    TouchShape(s, c, ch, t, panics);
  }

  lemma WaiterTouch(s: State, c: nat, ch: Chan, t: Tail, panics: bool, x: Step)
    requires CanTouch(s, c, t) && Elsewhere(x) && OfWaiter(x)
    ensures Commutes(s, c, ch, t, panics, x)
  {
    TouchShape(s, c, ch, t, panics);
  }

  lemma StopTouch(s: State, c: nat, ch: Chan, t: Tail, panics: bool, x: Step)
    requires CanTouch(s, c, t) && Elsewhere(x) && OfStop(x) && !x.JoinAll?
    ensures Commutes(s, c, ch, t, panics, x)
  {
    TouchShape(s, c, ch, t, panics);
  }

  lemma JoinTouch(s: State, c: nat, ch: Chan, t: Tail, panics: bool, x: Step)
    requires CanTouch(s, c, t) && x.JoinAll?
    ensures Commutes(s, c, ch, t, panics, x)
  {
    TouchShape(s, c, ch, t, panics);
  }

  lemma ElsewhereTouch(s: State, c: nat, ch: Chan, t: Tail, panics: bool, x: Step)
    requires CanTouch(s, c, t) && Elsewhere(x)
    ensures Commutes(s, c, ch, t, panics, x)
  {
    if OfStart(x) {
      StartTouch(s, c, ch, t, panics, x);
    } else if OfReader(x) {
      ReaderTouch(s, c, ch, t, panics, x);
    } else if OfWaiter(x) {
      WaiterTouch(s, c, ch, t, panics, x);
    } else if x.JoinAll? {
      JoinTouch(s, c, ch, t, panics, x);
    } else {
      StopTouch(s, c, ch, t, panics, x);
    }
  }

  predicate Ready(t: Tail, ch: Chan, x: Step) {
    match x
    case CancelTail(_) => t.pc.Selecting?
    case ReceiveEvent(_) => t.pc.Selecting? && (ch.buf != [] || ch.closed)
    case SendLine(_, _) => t.pc.Holding?
    case SendExit(_, _) => t.pc.HasCode?
    case _ => false
  }

  /** A step of a Tail is a Touch of its own. */
  lemma TailOnlyIsTouch(s: State, x: Step)
    requires Shape(s) && TailOnly(x)
    ensures Enabled(s, x) <==> x.c < |s.tails| && Ready(s.tails[x.c], s.store.chans[x.c], x)
    ensures Enabled(s, x) ==>
      var t, ch := s.tails[x.c], s.store.chans[x.c];
      var t' := NextTail(t, ch.buf, None, x);
      && t'.proc == t.proc && Shape(Apply(s, x))
      && Apply(s, x) == Touch(s, x.c, ch.(buf := NextBuf(ch.buf, x)), t', false)
  {
  }

  lemma TouchesCommute(s: State, c: nat, ch: Chan, t: Tail, panics: bool, d: nat, dh: Chan, u: Tail, panics': bool)
    requires c < |s.tails| == |s.store.chans| && d < |s.tails| && c != d
    ensures Touch(Touch(s, c, ch, t, panics), d, dh, u, panics') == Touch(Touch(s, d, dh, u, panics'), c, ch, t, panics)
  {
    assert s.store.chans[c := ch][d := dh] == s.store.chans[d := dh][c := ch];
    assert s.tails[c := t][d := u] == s.tails[d := u][c := t];
  }

  /** Any step that needs no lock, of another Tail or none, commutes with a Touch of channel `c`. */
  lemma LockFreeTouch(s: State, c: nat, ch: Chan, t: Tail, panics: bool, x: Step)
    requires CanTouch(s, c, t) && LockFree(x) && !OfTailOnly(x, c)
    ensures Shape(Touch(s, c, ch, t, panics))
    ensures Enabled(Touch(s, c, ch, t, panics), x) <==> Enabled(s, x)
    ensures Enabled(s, x) ==>
      && CanTouch(Apply(s, x), c, t) && Apply(s, x).tails[c] == s.tails[c]
      && Apply(s, x).store.chans[c] == s.store.chans[c] && |Apply(s, x).tails| == |s.tails|
      && Apply(Touch(s, c, ch, t, panics), x) == Touch(Apply(s, x), c, ch, t, panics)
  {
    TouchShape(s, c, ch, t, panics);
    if TailOnly(x) {
      TailOnlyIsTouch(s, x);
      TailOnlyIsTouch(Touch(s, c, ch, t, panics), x);
      if Enabled(s, x) {
        var u, dh := s.tails[x.c], s.store.chans[x.c];
        TouchesCommute(s, c, ch, t, panics, x.c, dh.(buf := NextBuf(dh.buf, x)), NextTail(u, dh.buf, None, x), false);
      }
    } else {
      ElsewhereTouch(s, c, ch, t, panics, x);
    }
  }

  lemma ServeCommutes(k: Kind, s: State, c: nat, x: Step)
    requires Shape(s) && c < |s.tails| && LockFree(x) && !OfTailOnly(x, c)
    ensures Shape(Serve(k, s, c))
    ensures Enabled(Serve(k, s, c), x) <==> Enabled(s, x)
    ensures Enabled(s, x) ==>
      && Shape(Apply(s, x)) && |Apply(s, x).tails| == |s.tails|
      && Apply(Serve(k, s, c), x) == Serve(k, Apply(s, x), c)
  {
    var ch, t := s.store.chans[c], s.tails[c];
    LockFreeTouch(s, c, NextChan(k, ch), NextDropped(k, ch, t), ch.closed, x);
  }

  predicate Keeps(s: State, x: Step)
    requires Shape(s) && Enabled(s, x)
  {
    Shape(Apply(s, x)) && |Apply(s, x).tails| == |s.tails| && |Apply(s, x).lives| == |s.lives|
  }

  lemma StartKeeps(s: State, x: Step)
    requires Shape(s) && Elsewhere(x) && Enabled(s, x) && OfStart(x)
    ensures Keeps(s, x)
  {
  }

  lemma ReaderKeepsShape(s: State, x: Step)
    requires Shape(s) && Elsewhere(x) && Enabled(s, x) && (OfReader(x) || OfWaiter(x))
    ensures Keeps(s, x)
  {
  }

  lemma StopKeeps(s: State, x: Step)
    requires Shape(s) && Elsewhere(x) && Enabled(s, x) && OfStop(x)
    ensures Keeps(s, x)
  {
  }

  lemma LockFreeKeeps(s: State, x: Step)
    requires Shape(s) && LockFree(x) && Enabled(s, x)
    ensures Keeps(s, x)
  {
    if TailOnly(x) {
      TailOnlyIsTouch(s, x);
    } else if OfStart(x) {
      StartKeeps(s, x);
    } else if OfStop(x) {
      StopKeeps(s, x);
    } else {
      ReaderKeepsShape(s, x);
    }
  }

  /** What a step does not touch is as it was. */
  lemma UntouchedTail(s: State, x: Step, c: nat)
    requires Shape(s) && LockFree(x) && !OfTailOnly(x, c) && Enabled(s, x) && c < |s.tails|
    ensures Shape(Apply(s, x)) && |Apply(s, x).tails| == |s.tails|
    ensures Apply(s, x).tails[c] == s.tails[c] && Apply(s, x).store.chans[c] == s.store.chans[c]
  {
    LockFreeTouch(s, c, s.store.chans[c], s.tails[c], false, x);
  }

  lemma TailStepIsThere(s: State, x: Step, y: Step)
    requires Shape(s) && LockFree(x) && TailOnly(y) && !OfTailOnly(x, y.c) && Enabled(s, x)
    requires Shape(Apply(s, x)) && Enabled(Apply(s, x), y)
    ensures Enabled(s, y)
  {
    LockFreeKeeps(s, x);
    TailOnlyIsTouch(Apply(s, x), y);
    UntouchedTail(s, x, y.c);
    TailOnlyIsTouch(s, y);
  }

  /** A step of a Tail commutes with every step before it that is not of the same Tail. */
  lemma StepsCommute(s: State, x: Step, y: Step)
    requires Shape(s) && LockFree(x) && TailOnly(y) && !OfTailOnly(x, y.c) && Enabled(s, x)
    requires Shape(Apply(s, x)) && Enabled(Apply(s, x), y) && Enabled(s, y)
    ensures Shape(Apply(s, y)) && Enabled(Apply(s, y), x) && Apply(Apply(s, y), x) == Apply(Apply(s, x), y)
  {
    TailOnlyIsTouch(Apply(s, x), y);
    TailOnlyIsTouch(s, y);
    UntouchedTail(s, x, y.c);
    var ch, t := s.store.chans[y.c], s.tails[y.c];
    LockFreeTouch(s, y.c, ch.(buf := NextBuf(ch.buf, y)), NextTail(t, ch.buf, None, y), false, x);
  }

  // ---- and with what precedes and follows the loop ----

  lemma BeginShape(k: Kind, s: State)
    requires Shape(s) && At(k, s)
    ensures Shape(Begin(k, s)) && At(k, Begin(k, s)) && |Begin(k, s).tails| == |s.tails|
  {
  }

  lemma BeginCommutes(k: Kind, s: State, y: Step)
    requires Shape(s) && At(k, s) && TailOnly(y) && Shape(Begin(k, s))
    ensures Enabled(Begin(k, s), y) <==> Enabled(s, y)
    ensures Enabled(s, y) ==>
      && Shape(Apply(s, y)) && At(k, Apply(s, y)) && Begin(k, Apply(s, y)) == Apply(Begin(k, s), y)
  {
    TailOnlyIsTouch(s, y);
    TailOnlyIsTouch(Begin(k, s), y);
  }

  lemma EndShape(k: Kind, s: State)
    requires Shape(s) && At(k, s)
    ensures Shape(End(k, s))
  {
  }

  predicate EndsAlike(k: Kind, s: State, x: Step)
    requires Shape(s) && At(k, s) && Enabled(s, x)
  {
    EndShape(k, s);
    Enabled(End(k, s), x) && At(k, Apply(s, x)) && Apply(End(k, s), x) == End(k, Apply(s, x))
  }

  lemma TailEnds(k: Kind, s: State, x: Step)
    requires Shape(s) && At(k, s) && Enabled(s, x) && TailOnly(x)
    ensures EndsAlike(k, s, x)
  {
    EndShape(k, s);
    TailOnlyIsTouch(s, x);
    TailOnlyIsTouch(End(k, s), x);
  }

  lemma StartEnds(k: Kind, s: State, x: Step)
    requires Shape(s) && At(k, s) && Enabled(s, x) && Elsewhere(x) && OfStart(x)
    ensures EndsAlike(k, s, x)
  {
    EndShape(k, s);
  }

  lemma UpdatesCommute<T>(s: seq<T>, p: nat, x: T, q: nat, y: T)
    requires p < |s| && q < |s| && p != q
    ensures s[p := x][q := y] == s[q := y][p := x]
  {
  }

  predicate OtherReader(k: Kind, q: nat, b: bool) {
    k.Fan? && q == k.p ==> b != k.event.stdout
  }

  /** The section leaves the other readers alone. */
  lemma EndOfOtherReader(k: Kind, s: State, q: nat, b: bool, r: Reader)
    requires At(k, s) && q < |s.lives| && OtherReader(k, q, b)
    ensures End(k, s).lives[q].At(b) == s.lives[q].At(b) && |End(k, s).lives| == |s.lives|
    ensures End(k, s).store.procs[q].pid == s.store.procs[q].pid && End(k, s).files == s.files
    ensures At(k, WithReader(s, q, b, r)) && WithReader(End(k, s), q, b, r) == End(k, WithReader(s, q, b, r))
  {
    var end, with := End(k, s), WithReader(s, q, b, r);
    if q != k.p {
      UpdatesCommute(s.lives, k.p, end.lives[k.p], q, with.lives[q]);
    } else {
      var l := WithReader(end, q, b, r).lives[q];
      assert s.lives[q := end.lives[q]][q := l] == s.lives[q := l] == s.lives[q := with.lives[q]][q := l];
    }
  }

  lemma ReaderEnds(k: Kind, s: State, x: Step)
    requires Shape(s) && At(k, s) && Enabled(s, x) && (x.Scan? || x.EndOfPipe?)
    ensures EndsAlike(k, s, x)
  {
    EndShape(k, s);
    var r := s.lives[x.p].At(x.stdout);
    EndOfOtherReader(k, s, x.p, x.stdout, r.(pc := if x.Scan? then Writing(x.line) else Finished));
  }

  lemma WriteEnds(k: Kind, s: State, x: Step)
    requires Shape(s) && At(k, s) && Enabled(s, x) && x.WriteLog?
    ensures EndsAlike(k, s, x)
  {
    EndShape(k, s);
    var r := s.lives[x.p].At(x.stdout);
    EndOfOtherReader(k, s, x.p, x.stdout, Reader(Sending(r.pc.line), r.log + [r.pc.line]));
  }

  lemma ReapEnds(k: Kind, s: State, x: Step)
    requires Shape(s) && At(k, s) && Enabled(s, x) && x.Reap?
    ensures EndsAlike(k, s, x)
  {
    EndShape(k, s);
    UpdatesCommute(s.lives, k.p, End(k, s).lives[k.p], x.p, DoReap(s, x.p, x.wait).lives[x.p]);
  }

  lemma DoneEnds(k: Kind, s: State, x: Step)
    requires Shape(s) && At(k, s) && Enabled(s, x) && x.CloseProcDone?
    ensures EndsAlike(k, s, x)
  {
    EndShape(k, s);
    if x.p != k.p {
      var end, done := End(k, s), DoCloseDone(s, x.p);
      UpdatesCommute(s.lives, k.p, end.lives[k.p], x.p, done.lives[x.p]);
      UpdatesCommute(s.store.procs, k.p, end.store.procs[k.p], x.p, done.store.procs[x.p]);
    }
  }

  lemma StopEnds(k: Kind, s: State, x: Step)
    requires Shape(s) && At(k, s) && Enabled(s, x) && Elsewhere(x) && OfStop(x) && !x.JoinAll?
    ensures EndsAlike(k, s, x)
  {
    EndShape(k, s);
  }

  lemma JoinEnds(k: Kind, s: State, x: Step)
    requires Shape(s) && At(k, s) && Enabled(s, x) && x.JoinAll?
    ensures EndsAlike(k, s, x)
  {
    EndShape(k, s);
  }

  lemma LockFreeEnds(k: Kind, s: State, x: Step)
    requires Shape(s) && At(k, s) && Enabled(s, x) && LockFree(x)
    ensures EndsAlike(k, s, x)
  {
    if TailOnly(x) {
      TailEnds(k, s, x);
    } else if OfStart(x) {
      StartEnds(k, s, x);
    } else if OfStop(x) {
      if x.JoinAll? { JoinEnds(k, s, x); } else { StopEnds(k, s, x); }
    } else {
      match x {
        case WriteLog(_, _) => WriteEnds(k, s, x);
        case Reap(_, _) => ReapEnds(k, s, x);
        case CloseProcDone(_) => DoneEnds(k, s, x);
        case _ => ReaderEnds(k, s, x);
      }
    }
  }
}
