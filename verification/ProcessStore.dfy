/** The memory that worker/process.go shares between its goroutines, as a value: the registry
    `pm.processes`, the fields of every tracked process that `pm.mu` guards, and the subscriber
    channels. Each function below is the effect of one critical section. A send on a closed
    channel and a second close are recorded in `panicked`; Go ends the program there. */
module ProcessStore {
  import opened Basics

  /** `make(chan tailEvent, 256)` */
  const SUBSCRIBER_SLOTS: nat := 256

  datatype TailEvent = TailEvent(stdout: bool, line: string)

  datatype Chan = Chan(buf: seq<TailEvent>, closed: bool)

  datatype Status = Running | Exited

  /** `subs` lists channel numbers; `done` says that the done channel is closed. */
  datatype Proc = Proc(pid: int, status: Status, exitCode: Option<int>, subs: seq<nat>, done: bool)

  /** Processes and channels are numbered in creation order. The registry maps a pid to a process
      number, so a reused pid replaces an entry while the older process lives on. */
  datatype Store = Store(registry: map<int, nat>, procs: seq<Proc>, chans: seq<Chan>, panicked: bool)

  predicate InRange(ids: seq<nat>, n: nat) {
    forall i :: 0 <= i < |ids| ==> ids[i] < n
  }

  predicate StoreShape(st: Store) {
    && (forall pid :: pid in st.registry ==> st.registry[pid] < |st.procs|)
    && (forall p :: 0 <= p < |st.procs| ==> InRange(st.procs[p].subs, |st.chans|))
  }

  // ---- Start ----

  function Register(st: Store, pid: int): Store {
    st.(procs := st.procs + [Proc(pid, Running, None, [], false)],
        registry := st.registry[pid := |st.procs|])
  }

  // ---- pipeReader ----

  /** The send with a `default` branch: an event for a full buffer is dropped. */
  function Offer(ch: Chan, e: TailEvent): Chan {
    if |ch.buf| < SUBSCRIBER_SLOTS then ch.(buf := ch.buf + [e]) else ch
  }

  function SendAll(st: Store, subs: seq<nat>, e: TailEvent): (r: Store)
    requires InRange(subs, |st.chans|)
    ensures |r.chans| == |st.chans|
    decreases |subs|
  {
    if subs == [] then st
    else if st.chans[subs[0]].closed then st.(panicked := true)
    else SendAll(st.(chans := st.chans[subs[0] := Offer(st.chans[subs[0]], e)]), subs[1..], e)
  }

  function FanOut(st: Store, p: nat, e: TailEvent): (r: Store)
    requires p < |st.procs| && InRange(st.procs[p].subs, |st.chans|)
    ensures |r.chans| == |st.chans|
  {
    SendAll(st, st.procs[p].subs, e)
  }

  // ---- waitForExit ----

  function CloseAll(st: Store, subs: seq<nat>): (r: Store)
    requires InRange(subs, |st.chans|)
    ensures |r.chans| == |st.chans|
    decreases |subs|
  {
    if subs == [] then st
    else if st.chans[subs[0]].closed then st.(panicked := true)
    else CloseAll(st.(chans := st.chans[subs[0] := st.chans[subs[0]].(closed := true)]), subs[1..])
  }

  function MarkExited(st: Store, p: nat, code: int): (r: Store)
    requires p < |st.procs| && InRange(st.procs[p].subs, |st.chans|)
    ensures |r.chans| == |st.chans|
  {
    var closed := CloseAll(st, st.procs[p].subs);
    closed.(procs := st.procs[p := st.procs[p].(status := Exited, exitCode := Some(code), subs := [])])
  }

  function CloseDone(st: Store, p: nat): Store
    requires p < |st.procs|
  {
    if st.procs[p].done then st.(panicked := true)
    else st.(procs := st.procs[p := st.procs[p].(done := true)])
  }

  // ---- Tail ----

  datatype Lookup = NotFound | AlreadyExited(proc: nat) | Live(proc: nat)

  /** The lookup at the head of `Stop` and of `Tail`. */
  function Find(st: Store, pid: int): Lookup
    requires StoreShape(st)
  {
    if pid !in st.registry then NotFound
    else if st.procs[st.registry[pid]].status.Exited? then AlreadyExited(st.registry[pid])
    else Live(st.registry[pid])
  }

  /** What Stop and Tail find: no process under the pid, one that has exited, or one that runs. */
  lemma FindIs(st: Store, pid: int)
    requires StoreShape(st)
    ensures Find(st, pid).NotFound? <==> pid !in st.registry
    ensures pid in st.registry ==>
      var p := st.registry[pid];
      && (st.procs[p].status.Exited? ==> Find(st, pid) == AlreadyExited(p))
      && (st.procs[p].status.Running? ==> Find(st, pid) == Live(p))
  {
  }

  function Subscribe(st: Store, p: nat): Store
    requires p < |st.procs|
  {
    st.(chans := st.chans + [Chan([], false)],
        procs := st.procs[p := st.procs[p].(subs := st.procs[p].subs + [|st.chans|])])
  }

  // ---- removeSubscriber ----

  /** The first position of `c`, or |subs| when it is absent. */
  function IndexOf(subs: seq<nat>, c: nat): (i: nat)
    ensures i <= |subs|
    ensures i < |subs| ==> subs[i] == c
    ensures forall k :: 0 <= k < i ==> subs[k] != c
  {
    if subs == [] || subs[0] == c then 0 else 1 + IndexOf(subs[1..], c)
  }

  function Without(subs: seq<nat>, c: nat): seq<nat> {
    var i := IndexOf(subs, c);
    if i == |subs| then subs else subs[..i] + subs[i + 1..]
  }

  /** The lookup is by pid again, so it may find a younger process than the one tailed. */
  function RemoveSubscriber(st: Store, pid: int, c: nat): Store
    requires StoreShape(st)
  {
    if pid !in st.registry then st
    else
      var p := st.registry[pid];
      st.(procs := st.procs[p := st.procs[p].(subs := Without(st.procs[p].subs, c))])
  }

  // ---- what the loops amount to ----

  predicate AllOpen(st: Store, subs: seq<nat>)
    requires InRange(subs, |st.chans|)
  {
    forall i :: 0 <= i < |subs| ==> !st.chans[subs[i]].closed
  }

  /** One turn of a loop over distinct channels: what is left to do, and to whom. */
  lemma RestOpen(st: Store, st1: Store, subs: seq<nat>)
    requires InRange(subs, |st.chans|) && |st1.chans| == |st.chans| && Distinct(subs)
    requires subs != [] && !st.chans[subs[0]].closed
    requires forall c :: 0 <= c < |st.chans| && c != subs[0] ==> st1.chans[c] == st.chans[c]
    ensures AllOpen(st, subs) <==> AllOpen(st1, subs[1..])
    ensures subs[0] !in subs[1..]
    ensures forall c :: c in subs <==> c == subs[0] || c in subs[1..]
  {
    var rest := subs[1..];
    assert subs == [subs[0]] + rest;
    if AllOpen(st1, rest) {
      forall i | 0 <= i < |subs| ensures !st.chans[subs[i]].closed {
        if i > 0 { assert subs[i] == rest[i - 1]; }
      }
    }
  }

  /** The send loop offers the event once to each subscriber, touches no other channel, and panics
      exactly when some subscriber is closed. */
  lemma {:induction false} SendAllPointwise(st: Store, subs: seq<nat>, e: TailEvent)
    requires InRange(subs, |st.chans|) && Distinct(subs)
    ensures var r := SendAll(st, subs, e);
      && r.registry == st.registry && r.procs == st.procs
      && r.panicked == (st.panicked || !AllOpen(st, subs))
      && (AllOpen(st, subs) ==>
            forall c :: 0 <= c < |st.chans| ==>
              r.chans[c] == if c in subs then Offer(st.chans[c], e) else st.chans[c])
    decreases |subs|
  {
    if subs != [] && !st.chans[subs[0]].closed {
      var st1 := st.(chans := st.chans[subs[0] := Offer(st.chans[subs[0]], e)]);
      SendAllPointwise(st1, subs[1..], e);
      RestOpen(st, st1, subs);
    }
  }

  lemma {:induction false} CloseAllPointwise(st: Store, subs: seq<nat>)
    requires InRange(subs, |st.chans|) && Distinct(subs)
    ensures var r := CloseAll(st, subs);
      && r.registry == st.registry && r.procs == st.procs
      && r.panicked == (st.panicked || !AllOpen(st, subs))
      && (AllOpen(st, subs) ==>
            forall c :: 0 <= c < |st.chans| ==>
              r.chans[c] == if c in subs then st.chans[c].(closed := true) else st.chans[c])
    decreases |subs|
  {
    if subs != [] && !st.chans[subs[0]].closed {
      var st1 := st.(chans := st.chans[subs[0] := st.chans[subs[0]].(closed := true)]);
      CloseAllPointwise(st1, subs[1..]);
      RestOpen(st, st1, subs);
    }
  }

  lemma MarkExitedPointwise(st: Store, p: nat, code: int)
    requires StoreShape(st) && p < |st.procs| && Distinct(st.procs[p].subs) && AllOpen(st, st.procs[p].subs)
    ensures var r := MarkExited(st, p, code);
      && StoreShape(r) && r.registry == st.registry && r.panicked == st.panicked
      && r.procs == st.procs[p := st.procs[p].(status := Exited, exitCode := Some(code), subs := [])]
      && forall c :: 0 <= c < |st.chans| ==>
           r.chans[c] == if c in st.procs[p].subs then st.chans[c].(closed := true) else st.chans[c]
  {
    CloseAllPointwise(st, st.procs[p].subs);
  }

  lemma SubscribeShape(st: Store, p: nat)
    requires StoreShape(st) && p < |st.procs|
    ensures StoreShape(Subscribe(st, p))
  {
    forall q | 0 <= q < |st.procs| ensures InRange(Subscribe(st, p).procs[q].subs, |st.chans| + 1) {
      assert InRange(st.procs[q].subs, |st.chans|);
    }
  }

  lemma WithoutFacts(subs: seq<nat>, c: nat)
    requires Distinct(subs)
    ensures Distinct(Without(subs, c))
    ensures forall d :: d in Without(subs, c) <==> d in subs && d != c
    ensures forall n: nat :: InRange(subs, n) ==> InRange(Without(subs, c), n)
  {
    var i := IndexOf(subs, c);
    var r := Without(subs, c);
    if i < |subs| {
      forall d | d in subs && d != c ensures d in r {
        var k :| 0 <= k < |subs| && subs[k] == d;
        assert if k < i then r[k] == d else r[k - 1] == d;
      }
    }
  }
}
