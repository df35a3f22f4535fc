/** The critical sections of worker/process.go on the heap: channels, tracked processes and the
    manager as objects. Each method is the body of one critical section, loops included, and is
    proved to have the effect that the protocol attributes to it. */
module ProcessManager {
  import opened Basics
  import S = ProcessStore
  import P = ProcessProtocol

  /** A `chan tailEvent` with 256 slots. Go panics where the preconditions are not met. */
  class Channel {
    ghost const id: nat
    ghost const owner: nat
    var buf: seq<S.TailEvent>
    var closed: bool

    constructor (ghost id: nat, ghost owner: nat)
      ensures this.id == id && this.owner == owner && buf == [] && !closed
    {
      this.id, this.owner := id, owner;
      buf, closed := [], false;
    }

    function Cell(): S.Chan
      reads this
    {
      S.Chan(buf, closed)
    }

    /** `select { case ch <- e: default: }` */
    method TrySend(e: S.TailEvent) returns (sent: bool)
      requires !closed
      modifies this`buf
      ensures Cell() == S.Offer(old(Cell()), e)
      ensures sent == (old(|buf|) < S.SUBSCRIBER_SLOTS)
    {
      sent := |buf| < S.SUBSCRIBER_SLOTS;
      if sent {
        buf := buf + [e];
      }
    }

    /** `e, ok := <-ch`, which waits until the channel is nonempty or closed. */
    method Receive() returns (e: Option<S.TailEvent>)
      requires buf != [] || closed
      modifies this`buf
      ensures e == if old(buf) != [] then Some(old(buf)[0]) else None
      ensures Cell() == old(Cell()).(buf := if old(buf) != [] then old(buf)[1..] else [])
    {
      e := None;
      if buf != [] {
        e := Some(buf[0]);
        buf := buf[1..];
      }
    }

    method Close()
      requires !closed
      modifies this`closed
      ensures Cell() == old(Cell()).(closed := true)
    {
      closed := true;
    }
  }

  /** The send loop. */
  method SendToAll(subs: seq<Channel>, e: S.TailEvent)
    requires Distinct(subs)
    requires forall k :: 0 <= k < |subs| ==> !subs[k].closed
    modifies subs
    ensures forall k :: 0 <= k < |subs| ==> subs[k].Cell() == S.Offer(old(subs[k].Cell()), e)
  {
    for i := 0 to |subs|
      invariant forall k :: 0 <= k < i ==> subs[k].Cell() == S.Offer(old(subs[k].Cell()), e)
      invariant forall k :: i <= k < |subs| ==> subs[k].Cell() == old(subs[k].Cell())
    {
      var _ := subs[i].TrySend(e);
    }
  }

  /** The close loop. */
  method CloseEach(subs: seq<Channel>)
    requires Distinct(subs)
    requires forall k :: 0 <= k < |subs| ==> !subs[k].closed
    modifies subs
    ensures forall k :: 0 <= k < |subs| ==> subs[k].Cell() == old(subs[k].Cell()).(closed := true)
  {
    for i := 0 to |subs|
      invariant forall k :: 0 <= k < i ==> subs[k].Cell() == old(subs[k].Cell()).(closed := true)
      invariant forall k :: i <= k < |subs| ==> subs[k].Cell() == old(subs[k].Cell())
    {
      subs[i].Close();
    }
  }

  /** The search loop of removeSubscriber. */
  method IndexOf(subs: seq<Channel>, ch: Channel) returns (i: nat)
    ensures i <= |subs| && (i < |subs| ==> subs[i] == ch)
    ensures forall k :: 0 <= k < i ==> subs[k] != ch
  {
    i := 0;
    while i < |subs| && subs[i] != ch
      invariant i <= |subs|
      invariant forall k :: 0 <= k < i ==> subs[k] != ch
    {
      i := i + 1;
    }
  }

  class TrackedProcess {
    ghost const id: nat
    const pid: int
    const name: string
    const command: string
    const workingDir: string
    const startedAt: int
    var status: S.Status
    var exitCode: Option<int>
    var exitedAt: Option<int>
    var subscribers: seq<Channel>
    var done: bool

    constructor (ghost id: nat, pid: int, name: string, command: string, workingDir: string, now: int)
      ensures this.id == id && this.pid == pid && startedAt == now && exitedAt == None
      ensures this.name == name && this.command == command && this.workingDir == workingDir
      ensures status.Running? && exitCode == None && subscribers == [] && !done
    {
      this.id := id;
      this.pid, this.name, this.command, this.workingDir := pid, name, command, workingDir;
      startedAt, exitedAt := now, None;
      status, exitCode, subscribers, done := S.Running, None, [], false;
    }
  }

  datatype ProcessInfo = ProcessInfo(pid: int, name: string, command: string, workingDir: string, status: S.Status,
                                     exitCode: Option<int>, startedAt: int, exitedAt: Option<int>)

  class Manager {
    const selfPid: int
    var processes: map<int, TrackedProcess>

    /** Every process ever registered and every channel ever made, and the store they amount to. */
    ghost var procs: seq<TrackedProcess>
    ghost var chans: seq<Channel>
    ghost var model: S.Store

    ghost predicate Matches(o: TrackedProcess, m: S.Proc)
      requires S.InRange(m.subs, |chans|)
      reads this`chans, o
    {
      && o.pid == m.pid && o.status == m.status && o.exitCode == m.exitCode && o.done == m.done
      && |o.subscribers| == |m.subs|
      && forall k :: 0 <= k < |m.subs| ==> o.subscribers[k] == chans[m.subs[k]]
    }

    ghost predicate ChansMatch(st: S.Store)
      reads this`chans, chans
    {
      && |chans| == |st.chans|
      && forall c :: 0 <= c < |chans| ==> chans[c].id == c && chans[c].Cell() == st.chans[c]
    }

    ghost predicate SubsMatch(p: nat, m: S.Proc)
      requires S.InRange(m.subs, |chans|)
      reads this`chans, chans
    {
      && Distinct(m.subs)
      && forall k :: 0 <= k < |m.subs| ==> !chans[m.subs[k]].closed && chans[m.subs[k]].owner == p
    }

    ghost predicate ProcsMatch()
      requires S.StoreShape(model) && |chans| == |model.chans|
      reads this, procs
    {
      && |procs| == |model.procs|
      && forall p :: 0 <= p < |procs| ==> procs[p].id == p && Matches(procs[p], model.procs[p])
    }

    ghost predicate AllSubsMatch()
      requires S.StoreShape(model) && |chans| == |model.chans|
      reads this, chans
    {
      forall p :: 0 <= p < |model.procs| ==> SubsMatch(p, model.procs[p])
    }

    ghost predicate RegistryMatches()
      requires S.StoreShape(model) && |procs| == |model.procs|
      reads this
    {
      && processes.Keys == model.registry.Keys
      && forall pid :: pid in processes ==>
           processes[pid].pid == pid && processes[pid] == procs[model.registry[pid]]
    }

    ghost predicate Valid()
      reads this, procs, chans
    {
      && S.StoreShape(model) && !model.panicked
      && ChansMatch(model) && ProcsMatch() && AllSubsMatch() && RegistryMatches()
    }

    /** Only process `p` changed, and of the channels only its own; they fit the new model. */
    twostate lemma ValidAfter(p: nat)
      requires old(Valid()) && procs == old(procs) && processes == old(processes) && p < |procs|
      requires forall q :: 0 <= q < |procs| && q != p ==> unchanged(procs[q])
      requires old(chans) <= chans
      requires forall c :: 0 <= c < |old(chans)| && chans[c].owner != p ==> unchanged(chans[c])
      requires S.StoreShape(model) && !model.panicked && model.registry == old(model.registry)
      requires |model.procs| == |procs|
      requires forall q :: 0 <= q < |procs| && q != p ==> model.procs[q] == old(model.procs[q])
      requires ChansMatch(model) && Matches(procs[p], model.procs[p]) && SubsMatch(p, model.procs[p])
      ensures Valid()
    {
      forall q | 0 <= q < |procs|
        ensures procs[q].id == q && Matches(procs[q], model.procs[q]) && SubsMatch(q, model.procs[q]) {
        assert old(procs[q].id == q && Matches(procs[q], model.procs[q]) && SubsMatch(q, model.procs[q]));
      }
    }

    ghost predicate Tracks(proc: TrackedProcess)
      reads this`procs
    {
      proc.id < |procs| && procs[proc.id] == proc
    }

    constructor (selfPid: int)
      ensures Valid() && this.selfPid == selfPid
      ensures model == P.INIT.store && procs == [] && chans == []
    {
      this.selfPid := selfPid;
      processes, procs, chans, model := map[], [], [], S.Store(map[], [], [], false);
    }

    /** Start: the entry for a reused pid is replaced. */
    method Register(pid: int, name: string, command: string, workingDir: string, now: int)
      returns (proc: TrackedProcess)
      requires Valid()
      modifies this
      ensures Valid() && model == S.Register(old(model), pid)
      ensures fresh(proc) && procs == old(procs) + [proc] && chans == old(chans)
      ensures proc.name == name && proc.command == command && proc.workingDir == workingDir
      ensures proc.startedAt == now && proc.exitedAt == None
    {
      proc := new TrackedProcess(|procs|, pid, name, command, workingDir, now);
      processes := processes[pid := proc];
      model := S.Register(model, pid);
      procs := procs + [proc];
    }

    /** pipeReader: offer the event to every subscriber. */
    method FanOut(proc: TrackedProcess, e: S.TailEvent)
      requires Valid() && Tracks(proc)
      modifies this`model, proc.subscribers
      ensures Valid() && model == S.FanOut(old(model), proc.id, e)
    {
      ghost var m := model.procs[proc.id];
      assert SubsMatch(proc.id, m) && Matches(proc, m);
      SubscribersDistinct(proc, m);
      SendToAll(proc.subscribers, e);
      S.SendAllPointwise(model, m.subs, e);
      model := S.FanOut(model, proc.id, e);
      ValidAfter(proc.id);
    }

    lemma SubscribersDistinct(proc: TrackedProcess, m: S.Proc)
      requires S.InRange(m.subs, |chans|) && Distinct(m.subs) && Matches(proc, m)
      requires forall c :: 0 <= c < |chans| ==> chans[c].id == c
      ensures Distinct(proc.subscribers)
    {
    }

    /** waitForExit: record the exit, close the subscribers and forget them. */
    method MarkExited(proc: TrackedProcess, code: int, now: int)
      requires Valid() && Tracks(proc)
      modifies this`model, proc`status, proc`exitCode, proc`exitedAt, proc`subscribers, proc.subscribers
      ensures Valid() && model == S.MarkExited(old(model), proc.id, code)
      ensures proc.exitedAt == Some(now)
    {
      ghost var m := model.procs[proc.id];
      assert SubsMatch(proc.id, m) && Matches(proc, m);
      SubscribersDistinct(proc, m);
      proc.status := S.Exited;
      proc.exitCode := Some(code);
      proc.exitedAt := Some(now);
      CloseEach(proc.subscribers);
      proc.subscribers := [];
      S.MarkExitedPointwise(model, proc.id, code);
      model := S.MarkExited(model, proc.id, code);
      ValidAfter(proc.id);
    }

    /** `close(proc.done)` */
    method CloseDone(proc: TrackedProcess)
      requires Valid() && Tracks(proc) && !proc.done
      modifies this`model, proc`done
      ensures Valid() && model == S.CloseDone(old(model), proc.id)
    {
      proc.done := true;
      model := S.CloseDone(model, proc.id);
    }

    /** The lookup at the head of Stop and Tail. */
    method Find(pid: int) returns (proc: TrackedProcess?)
      requires Valid()
      ensures S.Find(model, pid).NotFound? <==> proc == null
      ensures proc != null ==> Tracks(proc) && S.Find(model, pid).proc == proc.id
      ensures proc != null ==> (S.Find(model, pid).AlreadyExited? <==> proc.status.Exited?)
    {
      proc := if pid in processes then processes[pid] else null;
    }

    /** Tail: the lookup and, for a live process, a new channel at the end of its subscribers. */
    method Subscribe(pid: int) returns (proc: TrackedProcess?, ch: Channel?, ghost r: S.Lookup)
      requires Valid()
      modifies this`model, this`chans, procs
      ensures Valid() && procs == old(procs)
      ensures r == S.Find(old(model), pid)
      ensures r.NotFound? <==> proc == null
      ensures proc != null ==> Tracks(proc) && r.proc == proc.id
      ensures r.Live? <==> ch != null
      ensures r.Live? ==> model == S.Subscribe(old(model), r.proc) && fresh(ch) && chans == old(chans) + [ch]
      ensures !r.Live? ==> model == old(model) && chans == old(chans)
    {
      r := S.Find(model, pid);
      proc := Find(pid);
      ch := null;
      if proc != null && !proc.status.Exited? {
        ch := AddChannel(proc);
      }
    }

    method AddChannel(proc: TrackedProcess) returns (ch: Channel)
      requires Valid() && Tracks(proc)
      modifies this`model, this`chans, proc`subscribers
      ensures Valid() && model == S.Subscribe(old(model), proc.id)
      ensures fresh(ch) && chans == old(chans) + [ch]
    {
      ch := new Channel(|chans|, proc.id);
      S.SubscribeShape(model, proc.id);
      proc.subscribers := proc.subscribers + [ch];
      model := S.Subscribe(model, proc.id);
      chans := chans + [ch];
      ValidAfter(proc.id);
    }

    /** removeSubscriber: drop the channel from the process now registered under the pid. */
    method RemoveSubscriber(pid: int, ch: Channel)
      requires Valid() && ch.id < |chans| && chans[ch.id] == ch
      modifies this`model, procs
      ensures Valid() && model == S.RemoveSubscriber(old(model), pid, ch.id)
      ensures procs == old(procs)
    {
      if pid in processes {
        var proc := processes[pid];
        ghost var m := model.procs[proc.id];
        assert Matches(proc, m) && SubsMatch(proc.id, m);
        var i := IndexOf(proc.subscribers, ch);
        RemovalMatches(proc.subscribers, m.subs, ch, i);
        SubsWithout(proc.id, m, ch.id);
        if i < |proc.subscribers| {
          proc.subscribers := proc.subscribers[..i] + proc.subscribers[i + 1..];
        }
        model := S.RemoveSubscriber(model, pid, ch.id);
        ValidAfter(proc.id);
      }
    }

    lemma RemovalMatches(os: seq<Channel>, subs: seq<nat>, ch: Channel, i: nat)
      requires forall c :: 0 <= c < |chans| ==> chans[c].id == c
      requires S.InRange(subs, |chans|) && |os| == |subs| && forall k :: 0 <= k < |os| ==> os[k] == chans[subs[k]]
      requires i <= |os| && (forall k :: 0 <= k < i ==> os[k] != ch) && (i < |os| ==> os[i] == ch)
      requires ch.id < |chans| && chans[ch.id] == ch
      ensures S.IndexOf(subs, ch.id) == i
      ensures var left := S.Without(subs, ch.id);
        var os' := if i < |os| then os[..i] + os[i + 1..] else os;
        && S.InRange(left, |chans|) && |os'| == |left|
        && forall k :: 0 <= k < |left| ==> os'[k] == chans[left[k]]
    {
    }

    lemma SubsWithout(p: nat, m: S.Proc, c: nat)
      requires S.InRange(m.subs, |chans|) && SubsMatch(p, m)
      ensures var m' := m.(subs := S.Without(m.subs, c)); S.InRange(m'.subs, |chans|) && SubsMatch(p, m')
    {
      S.WithoutFacts(m.subs, c);
      var left := S.Without(m.subs, c);
      forall k | 0 <= k < |left| ensures !chans[left[k]].closed && chans[left[k]].owner == p {
        assert left[k] in left;
      }
    }

    /** The read of `proc.exitCode` by a Tail whose channel was closed. */
    method ExitCode(proc: TrackedProcess) returns (code: int, fellBack: bool)
      requires Valid() && Tracks(proc)
      ensures !fellBack ==> model.procs[proc.id].exitCode == Some(code)
      ensures fellBack <==> model.procs[proc.id].exitCode == None
      ensures fellBack ==> code == 0
    {
      code, fellBack := 0, true;
      if proc.exitCode.Some? {
        code, fellBack := proc.exitCode.value, false;
      }
    }

    /** StopAll's list of pids. Go's map iteration order is arbitrary. */
    method RunningPids() returns (pids: seq<int>)
      requires Valid()
      ensures P.IsSnapshot(model, pids)
      ensures Distinct(pids)
      ensures forall pid :: pid in pids <==>
        pid in model.registry && model.procs[model.registry[pid]].status.Running?
    {
      pids := [];
      var todo: set<int> := processes.Keys;
      while todo != {}
        invariant todo <= processes.Keys
        invariant Distinct(pids)
        invariant forall pid :: pid in pids <==> pid in processes && pid !in todo && processes[pid].status.Running?
        decreases todo
      {
        var pid := NextKey(todo);
        if processes[pid].status.Running? {
          pids := pids + [pid];
        }
        todo := todo - {pid};
      }
    }

    ghost predicate Listed(pid: int, includeExited: bool)
      requires pid in processes
      reads this, processes.Values
    {
      pid != selfPid && (includeExited || processes[pid].status.Running?)
    }

    function Info(proc: TrackedProcess): ProcessInfo
      reads proc
    {
      ProcessInfo(proc.pid, proc.name, proc.command, proc.workingDir, proc.status, proc.exitCode,
                  proc.startedAt, proc.exitedAt)
    }

    /** One entry for each listed pid in `pids`, and no other entry. */
    ghost predicate Lists(result: seq<ProcessInfo>, includeExited: bool, pids: set<int>)
      reads this, processes.Values
    {
      && (forall pid :: pid in pids && pid in processes && Listed(pid, includeExited) ==>
            Info(processes[pid]) in result)
      && (forall i :: 0 <= i < |result| ==>
            && result[i].pid in processes && result[i].pid in pids && Listed(result[i].pid, includeExited)
            && result[i] == Info(processes[result[i].pid]))
      && forall i, j :: 0 <= i < j < |result| ==> result[i].pid != result[j].pid
    }

    lemma ListsStep(result: seq<ProcessInfo>, includeExited: bool, pids: set<int>, pid: int)
      requires Lists(result, includeExited, pids) && pid in processes && pid !in pids && processes[pid].pid == pid
      ensures Lists(if Listed(pid, includeExited) then result + [Info(processes[pid])] else result,
                    includeExited, pids + {pid})
    {
      if Listed(pid, includeExited) {
        var next := result + [Info(processes[pid])];
        assert next[|result|] == Info(processes[pid]);
        assert forall r :: r in result ==> r in next;
      }
    }

    /** List: one entry per listed pid, in arbitrary order. */
    method List(includeExited: bool) returns (result: seq<ProcessInfo>)
      requires Valid()
      ensures Lists(result, includeExited, processes.Keys)
    {
      result := [];
      var todo: set<int> := processes.Keys;
      while todo != {}
        invariant todo <= processes.Keys
        invariant Lists(result, includeExited, processes.Keys - todo)
        decreases todo
      {
        var pid := NextKey(todo);
        var proc := processes[pid];
        ListsStep(result, includeExited, processes.Keys - todo, pid);
        if proc.pid != selfPid && (includeExited || proc.status.Running?) {
          result := result + [Info(proc)];
        }
        assert processes.Keys - (todo - {pid}) == processes.Keys - todo + {pid};
        todo := todo - {pid};
      }
    }

    /** What List shows: the processes that are registered, are not the server, and are running or asked for;
        each once, and of each its fields as they were registered and its status and code as they are stored. */
    lemma ListedIsStored(result: seq<ProcessInfo>, includeExited: bool)
      requires Valid() && Lists(result, includeExited, processes.Keys)
      ensures forall pid :: (exists i :: 0 <= i < |result| && result[i].pid == pid) <==>
        && pid in model.registry && pid != selfPid
        && (includeExited || model.procs[model.registry[pid]].status.Running?)
      ensures forall i :: 0 <= i < |result| ==>
        && result[i].pid in model.registry && result[i].pid in processes
        && var m, o := model.procs[model.registry[result[i].pid]], processes[result[i].pid];
           && result[i].pid == m.pid && result[i].status == m.status && result[i].exitCode == m.exitCode
           && result[i].name == o.name && result[i].command == o.command && result[i].workingDir == o.workingDir
           && result[i].startedAt == o.startedAt && result[i].exitedAt == o.exitedAt
    {
      forall pid | pid in processes
        ensures pid in model.registry && processes[pid].pid == pid
        ensures Matches(processes[pid], model.procs[model.registry[pid]])
      {
      }
      forall pid | pid in processes && Listed(pid, includeExited)
        ensures exists i :: 0 <= i < |result| && result[i].pid == pid
      {
        var i :| 0 <= i < |result| && result[i] == Info(processes[pid]);
      }
    }
  }
}
