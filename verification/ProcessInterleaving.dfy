/** Runs in which the loops under `pm.mu` are not one step: between two sends of a fan-out, or two closes at the
    end of a process, all goroutines that need no lock go on. Every such run ends where a run of the protocol
    ends, so treating the critical sections as one step loses no schedule. */
module ProcessInterleaving {
  import opened Basics
  import opened ProcessStore
  import opened ProcessProtocol
  import opened ProcessInvariant
  import opened ProcessReduction
  import T = ProcessTheorems

  // ---- steps that need no lock, one after the other ----

  predicate CanRun(s: State, xs: seq<Step>)
    requires Shape(s)
    decreases |xs|, 0
  {
    xs == []
    || (var front, x := xs[..|xs| - 1], xs[|xs| - 1];
        CanRun(s, front) && LockFree(x) && Enabled(RunAll(s, front), x))
  }

  function RunAll(s: State, xs: seq<Step>): (r: State)
    requires Shape(s) && CanRun(s, xs)
    ensures Shape(r) && |r.tails| == |s.tails| && |r.lives| == |s.lives|
    decreases |xs|, 1
  {
    if xs == [] then s
    else
      var r := RunAll(s, xs[..|xs| - 1]);
      LockFreeKeeps(r, xs[|xs| - 1]);
      Apply(r, xs[|xs| - 1])
  }

  // ---- a section, taken apart ----

  /** The next turn of the loop, or a step of another goroutine. */
  datatype Act = Turn | Other(step: Step)

  function Turns(acts: seq<Act>): nat {
    if acts == [] then 0 else Turns(acts[..|acts| - 1]) + if acts[|acts| - 1].Turn? then 1 else 0
  }

  /** The steps of the others. */
  function OthersOf(acts: seq<Act>): multiset<Step> {
    if acts == [] then multiset{}
    else OthersOf(acts[..|acts| - 1]) + if acts[|acts| - 1].Other? then multiset{acts[|acts| - 1].step} else multiset{}
  }

  function Start(k: Kind, s: State): (r: State)
    requires Shape(s) && At(k, s)
    ensures Shape(r) && At(k, r) && |r.tails| == |s.tails|
  {
    BeginShape(k, s);
    Begin(k, s)
  }

  /** The loop serves `subs` in order. */
  predicate CanPlay(k: Kind, s: State, subs: seq<nat>, acts: seq<Act>)
    requires Shape(s) && At(k, s) && InRange(subs, |s.tails|)
    decreases |acts|, 0
  {
    acts == []
    || (var front := acts[..|acts| - 1];
        && CanPlay(k, s, subs, front)
        && match acts[|acts| - 1]
           case Turn => Turns(front) < |subs|
           case Other(x) => LockFree(x) && Enabled(Play(k, s, subs, front), x))
  }

  function Play(k: Kind, s: State, subs: seq<nat>, acts: seq<Act>): (r: State)
    requires Shape(s) && At(k, s) && InRange(subs, |s.tails|) && CanPlay(k, s, subs, acts)
    ensures Shape(r) && At(k, r) && |r.tails| == |s.tails|
    decreases |acts|, 1
  {
    if acts == [] then Start(k, s)
    else
      var front := acts[..|acts| - 1];
      var r := Play(k, s, subs, front);
      match acts[|acts| - 1]
      case Turn => ServeShape(k, r, subs[Turns(front)]); Serve(k, r, subs[Turns(front)])
      case Other(x) => StepStays(k, r, x); Apply(r, x)
  }

  lemma StepStays(k: Kind, s: State, x: Step)
    requires Shape(s) && At(k, s) && LockFree(x) && Enabled(s, x)
    ensures Keeps(s, x) && At(k, Apply(s, x))
  {
    LockFreeKeeps(s, x);
    LockFreeEnds(k, s, x);
  }

  lemma ServeShape(k: Kind, s: State, c: nat)
    requires Shape(s) && c < |s.tails|
    ensures Shape(Serve(k, s, c)) && |Serve(k, s, c).tails| == |s.tails|
  {
    TouchShape(s, c, NextChan(k, s.store.chans[c]), NextDropped(k, s.store.chans[c], s.tails[c]),
               s.store.chans[c].closed);
  }

  /** The loop on its own. */
  function ServeAll(k: Kind, s: State, subs: seq<nat>): (r: State)
    requires Shape(s) && InRange(subs, |s.tails|)
    ensures Shape(r) && |r.tails| == |s.tails|
  {
    if subs == [] then s
    else
      var r := ServeAll(k, s, subs[..|subs| - 1]);
      ServeShape(k, r, subs[|subs| - 1]);
      Serve(k, r, subs[|subs| - 1])
  }

  // ---- steps that need no lock move past the turns and past each other ----

  predicate NoneOf(xs: seq<Step>, c: nat) {
    forall i :: 0 <= i < |xs| ==> !OfTailOnly(xs[i], c)
  }

  /** A turn can be taken before the steps that precede it. */
  lemma {:induction false} TurnFirst(k: Kind, s: State, xs: seq<Step>, c: nat)
    requires Shape(s) && CanRun(s, xs) && c < |s.tails| && NoneOf(xs, c)
    ensures Shape(Serve(k, s, c)) && CanRun(Serve(k, s, c), xs)
    ensures RunAll(Serve(k, s, c), xs) == Serve(k, RunAll(s, xs), c)
    decreases |xs|
  {
    ServeShape(k, s, c);
    if xs != [] {
      var front, x := xs[..|xs| - 1], xs[|xs| - 1];
      TurnFirst(k, s, front, c);
      ServeCommutes(k, RunAll(s, front), c, x);
    }
  }

  /** A step of a Tail can be taken before the steps of others that precede it. */
  lemma {:induction false} TailFirst(s: State, xs: seq<Step>, y: Step)
    requires Shape(s) && CanRun(s, xs) && TailOnly(y) && NoneOf(xs, y.c) && Enabled(RunAll(s, xs), y)
    ensures Enabled(s, y) && Shape(Apply(s, y)) && CanRun(Apply(s, y), xs)
    ensures RunAll(Apply(s, y), xs) == Apply(RunAll(s, xs), y)
    decreases |xs|
  {
    if xs != [] {
      var front, x := xs[..|xs| - 1], xs[|xs| - 1];
      TailStepIsThere(RunAll(s, front), x, y);
      TailFirst(s, front, y);
      StepsCommute(RunAll(s, front), x, y);
    }
    LockFreeKeeps(s, y);
  }

  /** And before the turns for other channels. */
  lemma {:induction false} TailBeforeTurns(k: Kind, s: State, subs: seq<nat>, y: Step)
    requires Shape(s) && InRange(subs, |s.tails|) && TailOnly(y) && y.c !in subs
    requires Enabled(ServeAll(k, s, subs), y)
    ensures Enabled(s, y) && Shape(Apply(s, y)) && |Apply(s, y).tails| == |s.tails|
    ensures ServeAll(k, Apply(s, y), subs) == Apply(ServeAll(k, s, subs), y)
    decreases |subs|
  {
    if subs != [] {
      var front, c := subs[..|subs| - 1], subs[|subs| - 1];
      ServeCommutes(k, ServeAll(k, s, front), c, y);
      TailBeforeTurns(k, s, front, y);
    }
    LockFreeKeeps(s, y);
  }

  lemma RunSnoc(s: State, xs: seq<Step>, x: Step)
    requires Shape(s) && CanRun(s, xs) && LockFree(x) && Enabled(RunAll(s, xs), x)
    ensures CanRun(s, xs + [x]) && RunAll(s, xs + [x]) == Apply(RunAll(s, xs), x)
  {
    TakeDrop(xs, [x]);
  }

  // ---- the section moves together ----

  function Loop(k: Kind, s: State, subs: seq<nat>): (r: State)
    requires Shape(s) && At(k, s) && InRange(subs, |s.tails|)
    ensures Shape(r) && |r.tails| == |s.tails|
  {
    ServeAll(k, Start(k, s), subs)
  }

  predicate AllTailOnly(xs: seq<Step>) {
    forall i :: 0 <= i < |xs| ==> TailOnly(xs[i])
  }

  /** The Tails whose steps are among `xs` are served. */
  predicate OfServed(xs: seq<Step>, served: seq<nat>) {
    forall i :: 0 <= i < |xs| ==> TailOnly(xs[i]) ==> xs[i].c in served
  }

  lemma OneMoreStep(xs: seq<Step>, x: Step, served: seq<nat>)
    ensures AllTailOnly(xs) && TailOnly(x) ==> AllTailOnly(xs + [x])
    ensures OfServed(xs, served) && (TailOnly(x) ==> x.c in served) ==> OfServed(xs + [x], served)
  {
  }

  lemma OneMoreServed(xs: seq<Step>, served: seq<nat>, c: nat)
    requires OfServed(xs, served) && c !in served
    ensures OfServed(xs, served + [c]) && NoneOf(xs, c)
  {
  }

  /** From `s` the turns for `served` and then `after` lead to `r`. */
  predicate Leads(k: Kind, s: State, served: seq<nat>, after: seq<Step>, r: State)
    requires Shape(s) && At(k, s) && InRange(served, |s.tails|)
  {
    && CanRun(Loop(k, s, served), after) && r == RunAll(Loop(k, s, served), after)
    && OfServed(after, served)
  }

  lemma LeadsTurn(k: Kind, s: State, served: seq<nat>, after: seq<Step>, r: State, c: nat)
    requires Shape(s) && At(k, s) && InRange(served, |s.tails|) && Leads(k, s, served, after, r)
    requires c < |s.tails| && c !in served
    ensures c < |r.tails| == |r.store.chans| && InRange(served + [c], |s.tails|)
    ensures Leads(k, s, served + [c], after, Serve(k, r, c))
  {
    OneMoreServed(after, served, c);
    TurnFirst(k, Loop(k, s, served), after, c);
    TakeDrop(served, [c]);
    assert Loop(k, s, served + [c]) == Serve(k, Loop(k, s, served), c);
  }

  lemma LeadsTail(k: Kind, s: State, served: seq<nat>, after: seq<Step>, r: State, y: Step)
    requires Shape(s) && At(k, s) && InRange(served, |s.tails|) && Leads(k, s, served, after, r)
    requires TailOnly(y) && y.c !in served && Shape(r) && Enabled(r, y)
    ensures Enabled(s, y) && Shape(Apply(s, y)) && At(k, Apply(s, y)) && |Apply(s, y).tails| == |s.tails|
    ensures Leads(k, Apply(s, y), served, after, Apply(r, y))
  {
    OneMoreServed(after, served, y.c);
    TailFirst(Loop(k, s, served), after, y);
    LoopTail(k, s, served, y);
  }

  lemma LoopTail(k: Kind, s: State, served: seq<nat>, y: Step)
    requires Shape(s) && At(k, s) && InRange(served, |s.tails|)
    requires TailOnly(y) && y.c !in served && Enabled(Loop(k, s, served), y)
    ensures Enabled(s, y) && Shape(Apply(s, y)) && At(k, Apply(s, y)) && |Apply(s, y).tails| == |s.tails|
    ensures Loop(k, Apply(s, y), served) == Apply(Loop(k, s, served), y)
  {
    BeginShape(k, s);
    TailBeforeTurns(k, Begin(k, s), served, y);
    BeginCommutes(k, s, y);
    LockFreeKeeps(s, y);
  }

  lemma LeadsOther(k: Kind, s: State, served: seq<nat>, after: seq<Step>, r: State, x: Step)
    requires Shape(s) && At(k, s) && InRange(served, |s.tails|) && Leads(k, s, served, after, r)
    requires LockFree(x) && (TailOnly(x) ==> x.c in served) && Shape(r) && Enabled(r, x)
    ensures Leads(k, s, served, after + [x], Apply(r, x))
  {
    OneMoreStep(after, x, served);
    RunSnoc(Loop(k, s, served), after, x);
  }

  /** Before the turns come steps of Tails, and after them those of Tails that were served already, with
      everything else. */
  predicate Moved(k: Kind, s: State, served: seq<nat>, r: State, before: seq<Step>, after: seq<Step>)
    requires Shape(s) && InRange(served, |s.tails|)
  {
    && CanRun(s, before) && At(k, RunAll(s, before)) && Leads(k, RunAll(s, before), served, after, r)
    && AllTailOnly(before)
  }

  lemma MoveTurn(k: Kind, s: State, served: seq<nat>, r: State, before: seq<Step>, after: seq<Step>, c: nat)
    requires Shape(s) && InRange(served, |s.tails|) && Moved(k, s, served, r, before, after)
    requires c < |s.tails| && c !in served
    ensures c < |r.tails| == |r.store.chans| && InRange(served + [c], |s.tails|)
    ensures Moved(k, s, served + [c], Serve(k, r, c), before, after)
  {
    LeadsTurn(k, RunAll(s, before), served, after, r, c);
  }

  lemma MoveForward(k: Kind, s: State, served: seq<nat>, r: State, before: seq<Step>, after: seq<Step>, y: Step)
    requires Shape(s) && InRange(served, |s.tails|) && Moved(k, s, served, r, before, after)
    requires TailOnly(y) && y.c !in served && Shape(r) && Enabled(r, y)
    ensures Moved(k, s, served, Apply(r, y), before + [y], after)
  {
    var s1 := RunAll(s, before);
    LeadsTail(k, s1, served, after, r, y);
    RunSnoc(s, before, y);
    OneMoreStep(before, y, served);
    assert RunAll(s, before + [y]) == Apply(s1, y);
  }

  lemma MoveBack(k: Kind, s: State, served: seq<nat>, r: State, before: seq<Step>, after: seq<Step>, x: Step)
    requires Shape(s) && InRange(served, |s.tails|) && Moved(k, s, served, r, before, after)
    requires LockFree(x) && (TailOnly(x) ==> x.c in served) && Shape(r) && Enabled(r, x)
    ensures Moved(k, s, served, Apply(r, x), before, after + [x])
  {
    LeadsOther(k, RunAll(s, before), served, after, r, x);
  }

  lemma OneMore<T>(a: seq<T>, b: seq<T>, x: T)
    ensures multiset(a + [x]) + multiset(b) == multiset(a) + multiset(b) + multiset{x}
    ensures multiset(a) + multiset(b + [x]) == multiset(a) + multiset(b) + multiset{x}
  {
  }

  lemma MoveOther(k: Kind, s: State, served: seq<nat>, r: State, before: seq<Step>, after: seq<Step>, x: Step)
    returns (before': seq<Step>, after': seq<Step>)
    requires Shape(s) && InRange(served, |s.tails|) && Moved(k, s, served, r, before, after)
    requires LockFree(x) && Shape(r) && Enabled(r, x)
    ensures Moved(k, s, served, Apply(r, x), before', after')
    ensures multiset(before') + multiset(after') == multiset(before) + multiset(after) + multiset{x}
  {
    OneMore(before, after, x);
    if TailOnly(x) && x.c !in served {
      MoveForward(k, s, served, r, before, after, x);
      before', after' := before + [x], after;
    } else {
      MoveBack(k, s, served, r, before, after, x);
      before', after' := before, after + [x];
    }
  }

  lemma NoneMoved(k: Kind, s: State, subs: seq<nat>)
    requires Shape(s) && At(k, s)
    ensures Moved(k, s, subs[..0], Start(k, s), [], [])
  {
    assert subs[..0] == [] && Loop(k, s, []) == Start(k, s);
  }

  lemma NextServed(subs: seq<nat>, n: nat)
    requires Distinct(subs) && n < |subs|
    ensures subs[..n + 1] == subs[..n] + [subs[n]] && subs[n] !in subs[..n]
  {
  }

  lemma TurnMoves(k: Kind, s: State, subs: seq<nat>, acts: seq<Act>, before: seq<Step>, after: seq<Step>)
    requires Shape(s) && At(k, s) && InRange(subs, |s.tails|) && Distinct(subs) && CanPlay(k, s, subs, acts)
    requires acts != [] && acts[|acts| - 1].Turn? && InRange(subs[..Turns(acts[..|acts| - 1])], |s.tails|)
    requires Moved(k, s, subs[..Turns(acts[..|acts| - 1])], Play(k, s, subs, acts[..|acts| - 1]), before, after)
    ensures Turns(acts) <= |subs| && InRange(subs[..Turns(acts)], |s.tails|)
    ensures Moved(k, s, subs[..Turns(acts)], Play(k, s, subs, acts), before, after)
  {
    var front := acts[..|acts| - 1];
    var n, r := Turns(front), Play(k, s, subs, front);
    NextServed(subs, n);
    MoveTurn(k, s, subs[..n], r, before, after, subs[n]);
  }

  lemma OtherMoves(k: Kind, s: State, subs: seq<nat>, acts: seq<Act>, before: seq<Step>, after: seq<Step>)
    returns (before': seq<Step>, after': seq<Step>)
    requires Shape(s) && At(k, s) && InRange(subs, |s.tails|) && CanPlay(k, s, subs, acts)
    requires acts != [] && acts[|acts| - 1].Other?
    requires Turns(acts[..|acts| - 1]) <= |subs| && InRange(subs[..Turns(acts[..|acts| - 1])], |s.tails|)
    requires Moved(k, s, subs[..Turns(acts[..|acts| - 1])], Play(k, s, subs, acts[..|acts| - 1]), before, after)
    requires multiset(before) + multiset(after) == OthersOf(acts[..|acts| - 1])
    ensures Turns(acts) <= |subs| && InRange(subs[..Turns(acts)], |s.tails|)
    ensures Moved(k, s, subs[..Turns(acts)], Play(k, s, subs, acts), before', after')
    ensures multiset(before') + multiset(after') == OthersOf(acts)
  {
    var front, x := acts[..|acts| - 1], acts[|acts| - 1].step;
    before', after' := MoveOther(k, s, subs[..Turns(front)], Play(k, s, subs, front), before, after, x);
  }

  /** Up to any point of the loop. */
  lemma {:induction false} TurnsMoveTogether(k: Kind, s: State, subs: seq<nat>, acts: seq<Act>)
    returns (before: seq<Step>, after: seq<Step>)
    requires Shape(s) && At(k, s) && InRange(subs, |s.tails|) && Distinct(subs)
    requires CanPlay(k, s, subs, acts)
    ensures Turns(acts) <= |subs| && InRange(subs[..Turns(acts)], |s.tails|)
    ensures Moved(k, s, subs[..Turns(acts)], Play(k, s, subs, acts), before, after)
    ensures multiset(before) + multiset(after) == OthersOf(acts)
    decreases |acts|
  {
    if acts == [] {
      before, after := [], [];
      NoneMoved(k, s, subs);
    } else {
      before, after := TurnsMoveTogether(k, s, subs, acts[..|acts| - 1]);
      if acts[|acts| - 1].Turn? {
        TurnMoves(k, s, subs, acts, before, after);
      } else {
        before, after := OtherMoves(k, s, subs, acts, before, after);
      }
    }
  }

  // ---- the loop is the step of the protocol ----

  lemma {:induction false} ServeAllPointwise(k: Kind, s: State, subs: seq<nat>)
    requires Shape(s) && InRange(subs, |s.tails|) && Distinct(subs) && AllOpen(s.store, subs)
    ensures var r := ServeAll(k, s, subs);
      && r == s.(store := s.store.(chans := r.store.chans), tails := r.tails)
      && forall c :: 0 <= c < |s.tails| ==>
           && r.store.chans[c] == (if c in subs then NextChan(k, s.store.chans[c]) else s.store.chans[c])
           && r.tails[c] == if c in subs then NextDropped(k, s.store.chans[c], s.tails[c]) else s.tails[c]
  {
    if subs != [] {
      var front, c := subs[..|subs| - 1], subs[|subs| - 1];
      FrontLast(subs);
      ServeAllPointwise(k, s, front);
      assert c !in front;
    }
  }

  lemma FanIsLoop(s: State, p: nat, e: TailEvent)
    requires CoreInv(s) && At(Fan(p, e), s)
    ensures var k := Fan(p, e);
      var r := Loop(k, s, s.store.procs[p].subs);
      At(k, r) && Enabled(s, StepOf(k)) && End(k, r) == Apply(s, StepOf(k))
  {
    var subs := s.store.procs[p].subs;
    assert SubsOk(p, s.store.procs[p], s.store.chans, s.tails);
    ServeAllPointwise(Fan(p, e), s, subs);
    SendAllPointwise(s.store, subs, e);
    var r := Loop(Fan(p, e), s, subs);
    assert r.store.chans == FanOut(s.store, p, e).chans;
    assert r.tails == CountDrops(s, p);
  }

  lemma CloseIsLoop(s: State, p: nat)
    requires CoreInv(s) && At(Close(p), s)
    ensures var k := Close(p);
      var r := Loop(k, s, s.store.procs[p].subs);
      At(k, r) && Enabled(s, StepOf(k)) && End(k, r) == Apply(s, StepOf(k))
  {
    var k, subs := Close(p), s.store.procs[p].subs;
    assert SubsOk(p, s.store.procs[p], s.store.chans, s.tails);
    var r, marked := Loop(k, s, subs), MarkExited(s.store, p, s.lives[p].waiter.code);
    ServeAllPointwise(k, Start(k, s), subs);
    MarkExitedPointwise(s.store, p, s.lives[p].waiter.code);
    assert r.store.chans == marked.chans;
    assert r.tails == s.tails;
    assert End(k, r).store.procs == marked.procs;
  }

  lemma SectionIsLoop(k: Kind, s: State)
    requires CoreInv(s) && At(k, s)
    ensures var r := Loop(k, s, s.store.procs[k.p].subs);
      At(k, r) && Enabled(s, StepOf(k)) && End(k, r) == Apply(s, StepOf(k))
  {
    match k
    case Fan(p, e) => FanIsLoop(s, p, e);
    case Close(p) => CloseIsLoop(s, p);
  }

  /** What follows the loop can be done before the steps that precede it. */
  lemma {:induction false} EndFirst(k: Kind, s: State, xs: seq<Step>)
    requires Shape(s) && At(k, s) && CanRun(s, xs)
    ensures Shape(End(k, s)) && CanRun(End(k, s), xs)
    ensures At(k, RunAll(s, xs)) && RunAll(End(k, s), xs) == End(k, RunAll(s, xs))
    decreases |xs|
  {
    EndShape(k, s);
    if xs != [] {
      var front, x := xs[..|xs| - 1], xs[|xs| - 1];
      EndFirst(k, s, front);
      LockFreeEnds(k, RunAll(s, front), x);
    }
  }

  /** Steps of Tails leave the subscriber lists alone. */
  lemma {:induction false} TailsKeepProcs(s: State, xs: seq<Step>)
    requires Shape(s) && CanRun(s, xs) && AllTailOnly(xs)
    ensures RunAll(s, xs).store.procs == s.store.procs
    decreases |xs|
  {
    if xs != [] {
      var front, x := xs[..|xs| - 1], xs[|xs| - 1];
      TailsKeepProcs(s, front);
      TailOnlyIsTouch(RunAll(s, front), x);
    }
  }

  lemma {:induction false} RunKeepsInv(s: State, xs: seq<Step>)
    requires Inv(s) && CanRun(s, xs)
    ensures Inv(RunAll(s, xs))
    decreases |xs|
  {
    if xs != [] {
      RunKeepsInv(s, xs[..|xs| - 1]);
      StepKeepsInv(RunAll(s, xs[..|xs| - 1]), xs[|xs| - 1]);
    }
  }

  /** The goroutine is at its section, and `acts` are played up to the end of its loop. */
  predicate CanDo(k: Kind, s: State, acts: seq<Act>) {
    && Shape(s) && At(k, s) && CanPlay(k, s, s.store.procs[k.p].subs, acts)
    && Turns(acts) == |s.store.procs[k.p].subs|
  }

  function Do(k: Kind, s: State, acts: seq<Act>): State
    requires CanDo(k, s, acts)
  {
    End(k, Play(k, s, s.store.procs[k.p].subs, acts))
  }

  /** A whole section with any steps of others between the turns of its loop ends as some of these steps, then the
      section in one step, then the others. */
  lemma SectionIsOneStep(k: Kind, s: State, acts: seq<Act>)
    returns (before: seq<Step>, after: seq<Step>)
    requires Inv(s) && CanDo(k, s, acts)
    ensures multiset(before) + multiset(after) == OthersOf(acts)
    ensures CanRun(s, before) && Enabled(RunAll(s, before), StepOf(k))
    ensures Shape(Apply(RunAll(s, before), StepOf(k))) && CanRun(Apply(RunAll(s, before), StepOf(k)), after)
    ensures Do(k, s, acts) == RunAll(Apply(RunAll(s, before), StepOf(k)), after)
  {
    var subs := s.store.procs[k.p].subs;
    assert SubsOk(k.p, s.store.procs[k.p], s.store.chans, s.tails);
    before, after := TurnsMoveTogether(k, s, subs, acts);
    assert subs[..|subs|] == subs;
    var s1 := RunAll(s, before);
    RunKeepsInv(s, before);
    TailsKeepProcs(s, before);
    SectionIsLoop(k, s1);
    EndFirst(k, Loop(k, s1, subs), after);
  }

  // ---- whole runs ----

  /** A step of the protocol, or a section with a loop, taken apart. */
  datatype Item = Single(step: Step) | Section(k: Kind, acts: seq<Act>)

  predicate CanDoItem(s: State, item: Item) {
    && Shape(s)
    && match item
       case Single(x) => !x.FanOutLine? && !x.MarkProcExited? && Enabled(s, x)
       case Section(k, acts) => CanDo(k, s, acts)
  }

  function DoItem(s: State, item: Item): State
    requires CanDoItem(s, item)
  {
    match item
    case Single(x) => Apply(s, x)
    case Section(k, acts) => Do(k, s, acts)
  }

  function StepsOf(items: seq<Item>): multiset<Step> {
    if items == [] then multiset{}
    else
      StepsOf(items[..|items| - 1])
      + match items[|items| - 1]
        case Single(x) => multiset{x}
        case Section(k, acts) => multiset{StepOf(k)} + OthersOf(acts)
  }

  predicate CanDoAll(items: seq<Item>)
    decreases |items|, 0
  {
    items == []
    || (CanDoAll(items[..|items| - 1]) && CanDoItem(DoAll(items[..|items| - 1]), items[|items| - 1]))
  }

  /** The state that a run of the parts leads to. */
  function DoAll(items: seq<Item>): State
    requires CanDoAll(items)
    decreases |items|, 1
  {
    if items == [] then INIT else DoItem(DoAll(items[..|items| - 1]), items[|items| - 1])
  }

  lemma {:induction false} ExtendAll(states: seq<State>, steps: seq<Step>, xs: seq<Step>)
    returns (states': seq<State>, steps': seq<Step>)
    requires T.Behaviour(states, steps) && Shape(states[|steps|]) && CanRun(states[|steps|], xs)
    ensures T.Behaviour(states', steps') && steps' == steps + xs && states'[|steps'|] == RunAll(states[|steps|], xs)
    decreases |xs|
  {
    if xs == [] {
      states', steps' := states, steps;
    } else {
      states', steps' := ExtendAll(states, steps, xs[..|xs| - 1]);
      states', steps' := T.Extend(states', steps', xs[|xs| - 1]);
      FrontLast(xs);
      Assoc(steps, xs[..|xs| - 1], [xs[|xs| - 1]]);
    }
  }

  lemma ExtendSection(states: seq<State>, steps: seq<Step>, k: Kind, acts: seq<Act>)
    returns (states': seq<State>, steps': seq<Step>)
    requires T.Behaviour(states, steps) && CanDo(k, states[|steps|], acts)
    ensures T.Behaviour(states', steps') && states'[|steps'|] == Do(k, states[|steps|], acts)
    ensures multiset(steps') == multiset(steps) + (multiset{StepOf(k)} + OthersOf(acts))
  {
    T.BehaviourInv(states, steps, |steps|);
    var before, after := SectionIsOneStep(k, states[|steps|], acts);
    states', steps' := ExtendAll(states, steps, before);
    states', steps' := T.Extend(states', steps', StepOf(k));
    states', steps' := ExtendAll(states', steps', after);
    StepsCounted(steps, before, StepOf(k), after);
  }

  lemma StepsCounted<T>(a: seq<T>, b: seq<T>, x: T, c: seq<T>)
    ensures multiset(a + b + [x] + c) == multiset(a) + (multiset{x} + (multiset(b) + multiset(c)))
  {
  }

  /** Every run of the parts ends where a run of the protocol ends that takes the same steps, the critical
      sections in one. */
  lemma {:induction false} PartsAreAtomic(items: seq<Item>) returns (states: seq<State>, steps: seq<Step>)
    requires CanDoAll(items)
    ensures T.Behaviour(states, steps) && states[|steps|] == DoAll(items) && multiset(steps) == StepsOf(items)
    decreases |items|
  {
    if items == [] {
      states, steps := [INIT], [];
    } else {
      states, steps := PartsAreAtomic(items[..|items| - 1]);
      match items[|items| - 1] {
        case Single(x) => states, steps := T.Extend(states, steps, x);
        case Section(k, acts) => states, steps := ExtendSection(states, steps, k, acts);
      }
    }
  }

  // ---- no panic in the middle of a section ----

  /** A loop can always be played to its end, and a panic stays. */
  lemma {:induction false} PlayOut(k: Kind, s: State, subs: seq<nat>, acts: seq<Act>) returns (whole: seq<Act>)
    requires Shape(s) && At(k, s) && InRange(subs, |s.tails|) && CanPlay(k, s, subs, acts) && Turns(acts) <= |subs|
    ensures CanPlay(k, s, subs, whole) && Turns(whole) == |subs|
    ensures Play(k, s, subs, acts).store.panicked ==> Play(k, s, subs, whole).store.panicked
    decreases |subs| - Turns(acts)
  {
    whole := acts;
    if Turns(acts) < |subs| {
      TakeDrop(acts, [Turn]);
      whole := PlayOut(k, s, subs, acts + [Turn]);
    }
  }

  /** So the invariant holds whenever no section is open; and there is no send on a closed channel and no second
      close, at any point between the turns of any loop of any run. */
  lemma LoopsNeverPanic(items: seq<Item>, k: Kind, acts: seq<Act>)
    requires CanDoAll(items)
    ensures Inv(DoAll(items))
    ensures var s := DoAll(items);
      At(k, s) && CanPlay(k, s, s.store.procs[k.p].subs, acts) ==>
        !Play(k, s, s.store.procs[k.p].subs, acts).store.panicked
  {
    var states, steps := PartsAreAtomic(items);
    T.BehaviourInv(states, steps, |steps|);
    var s := DoAll(items);
    if At(k, s) && CanPlay(k, s, s.store.procs[k.p].subs, acts) {
      var before, after := TurnsMoveTogether(k, s, s.store.procs[k.p].subs, acts);
      var whole := PlayOut(k, s, s.store.procs[k.p].subs, acts);
      states, steps := ExtendSection(states, steps, k, whole);
      T.NeverPanics(states, steps, |steps|);
    }
  }
}
