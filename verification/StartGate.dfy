/** The start gate and the batch protocol around it, as steps of a coordinator and its workers over
    shared state. Each critical section under the mutex is one step; a wait on the condition
    variable gives the mutex up and may end without a notification. */
module StartGate {
  import opened Common
  import opened Workload

  datatype GateState = GateState(ready: nat, startedAt: Option<nat>, cancelled: bool)

  const CLOSED := GateState(0, None, false)

  function Arrived(g: GateState): GateState { g.(ready := SaturatingAdd(g.ready, 1)) }

  function Released(g: GateState, now: nat): GateState { g.(startedAt := Some(now)) }

  function Cancelled(g: GateState): GateState { g.(cancelled := true) }

  predicate MustWait(g: GateState) { g.startedAt.None? && !g.cancelled }

  /** The state under the mutex, with one method per critical section. */
  class Gate {
    var ready: nat
    var startedAt: Option<nat>
    var cancelled: bool

    function State(): GateState
      reads this
    {
      GateState(ready, startedAt, cancelled)
    }

    constructor ()
      ensures State() == CLOSED
    {
      ready, startedAt, cancelled := 0, None, false;
    }

    /** A worker announces itself and looks whether it has to wait. */
    method Arrive() returns (wait: bool)
      modifies this
      ensures State() == Arrived(old(State())) && wait == MustWait(State())
    {
      ready := SaturatingAdd(ready, 1);
      wait := startedAt.None? && !cancelled;
    }

    /** A worker looks again after its wait ended. */
    method LookAgain() returns (wait: bool)
      ensures wait == MustWait(State())
    {
      wait := startedAt.None? && !cancelled;
    }

    /** The coordinator looks whether every worker has arrived. */
    method AllReady(workerCount: nat) returns (all: bool)
      ensures all == (State().ready >= workerCount)
    {
      all := ready >= workerCount;
    }

    method Release(now: nat)
      modifies this
      ensures State() == Released(old(State()), now)
    {
      startedAt := Some(now);
    }

    method Cancel()
      modifies this
      ensures State() == Cancelled(old(State()))
    {
      cancelled := true;
    }
  }

  // ---- The protocol ----

  /** A batch: how many operations, how many workers, where their ranges begin and end, and
      what each invocation yields. */
  datatype Config<!T> = Config(count: nat, total: nat, bounds: seq<nat>, outcome: nat -> Option<T>)

  ghost predicate ValidConfig<T>(c: Config<T>) {
    0 < c.total <= U64_MAX && |c.bounds| == c.total + 1 && IsPartition(c.bounds, c.count)
  }

  /** The executor's own split of the index space is such a batch. */
  lemma {:induction false} ExecutorConfigIsValid<T>(count: nat, concurrency: nat, outcome: nat -> Option<T>)
    requires count <= U64_MAX && LaunchOf<T>(count, concurrency).Start?
    ensures var total := LaunchOf<T>(count, concurrency).workers;
      0 < total && ValidConfig(Config(count, total, ExecutorBounds(count, total), outcome))
  {
    ExecutorRangesArePartition(count, Min(count, concurrency));
  }

  /** `clock` is the last instant the worker has lived through, in nanoseconds. */
  datatype Worker<+T> =
    | Unspawned
    | Spawned
    | Waiting
    | Woken
    | Running(next: nat, clock: nat, results: seq<(nat, T)>, firstPanic: Option<nat>)
    | Finished(work: WorkerResults<T>)

  datatype Coordinator<+T> =
    | Spawning(slot: nat)
    | Cancelling(slot: nat)
    | Draining(slot: nat, drained: nat)
    | Checking
    | Blocked
    | Releasing
    | Joining(slot: nat)
    | Done(batch: Result<Batch<T>, Error>)

  /** `log` lists the invocations in the order they happened; `spent` is the time each took. */
  datatype State<+T> = State(
    gate: GateState, coordinator: Coordinator<T>, workers: seq<Worker<T>>,
    log: seq<nat>, spent: map<nat, nat>)

  datatype Step =
    | Spawn(ok: bool)
    | CancelGate
    | Drain
    | CheckReady
    | ReleaseGate(now: nat)
    | JoinWorker
    | Enter(slot: nat)
    | Recheck(slot: nat)
    | Invoke(slot: nat, pause: nat, elapsed: nat)
    | Finish(slot: nat, pause: nat)
    | SpuriousWorker(slot: nat)
    | SpuriousCoordinator

  predicate Spurious(step: Step) { step.SpuriousWorker? || step.SpuriousCoordinator? }

  ghost predicate Initial<T>(c: Config<T>, s: State<T>) {
    && s.gate == CLOSED && s.coordinator == Spawning(0) && s.log == [] && s.spent == map[]
    && |s.workers| == c.total && (forall i :: 0 <= i < c.total ==> s.workers[i] == Unspawned)
  }

  ghost predicate Enabled<T>(c: Config<T>, s: State<T>, step: Step)
    requires ValidConfig(c)
  {
    && |s.workers| == c.total
    && match step
       case Spawn(_) => s.coordinator.Spawning? && s.coordinator.slot < c.total
       case CancelGate => s.coordinator.Cancelling?
       case Drain =>
         && s.coordinator.Draining?
         && (s.coordinator.drained < s.coordinator.slot ==>
               s.coordinator.drained < c.total && s.workers[s.coordinator.drained].Finished?)
       case CheckReady => s.coordinator.Checking?
       case ReleaseGate(_) => s.coordinator.Releasing?
       case JoinWorker =>
         s.coordinator.Joining? && (s.coordinator.slot < c.total ==> s.workers[s.coordinator.slot].Finished?)
       case Enter(slot) => slot < c.total && s.workers[slot].Spawned?
       case Recheck(slot) => slot < c.total && s.workers[slot].Woken?
       case Invoke(slot, _, _) =>
         slot < c.total && s.workers[slot].Running? && s.workers[slot].next < c.bounds[slot + 1]
       case Finish(slot, _) =>
         slot < c.total && s.workers[slot].Running? && s.workers[slot].next >= c.bounds[slot + 1]
       case SpuriousWorker(slot) => slot < c.total && s.workers[slot].Waiting?
       case SpuriousCoordinator => s.coordinator.Blocked?
  }

  /** `notify_all`: everyone waiting will look again. */
  function WakeWorkers<T>(workers: seq<Worker<T>>): (r: seq<Worker<T>>)
    ensures |r| == |workers|
    ensures forall i :: 0 <= i < |r| ==> r[i] == if workers[i].Waiting? then Woken else workers[i]
  {
    seq(|workers|, i requires 0 <= i < |workers| => if workers[i].Waiting? then Woken else workers[i])
  }

  function WakeCoordinator<T>(coordinator: Coordinator<T>): Coordinator<T> {
    if coordinator.Blocked? then Checking else coordinator
  }

  /** What a worker does once it has looked at the gate. */
  function Proceed<T>(c: Config<T>, gate: GateState, slot: nat): Worker<T>
    requires slot < |c.bounds|
  {
    if MustWait(gate) then Waiting
    else match gate.startedAt
      case Some(at) => Running(c.bounds[slot], at, [], None)
      case None => Finished(WorkerResults([], None, 0))
  }

  function AfterInvocation<T>(c: Config<T>, w: Worker<T>, pause: nat, elapsed: nat): Worker<T>
    requires w.Running?
  {
    var clock := w.clock + pause + elapsed;
    match c.outcome(w.next)
    case Some(result) => Running(w.next + 1, clock, w.results + [(w.next, result)], w.firstPanic)
    case None => Running(w.next + 1, clock, w.results, EarlierPanic(w.firstPanic, Some(w.next)))
  }

  function Work<T>(w: Worker<T>): WorkerResults<T> {
    if w.Finished? then w.work else WorkerResults([], None, 0)
  }

  function WorkOf<T>(workers: seq<Worker<T>>): (r: seq<WorkerResults<T>>)
    ensures |r| == |workers| && forall i :: 0 <= i < |r| ==> r[i] == Work(workers[i])
  {
    seq(|workers|, i requires 0 <= i < |workers| => Work(workers[i]))
  }

  /** Time passed since the release; a clock that went backwards reads as zero. */
  function Elapsed(gate: GateState, clock: nat): nat {
    var since := clock - gate.startedAt.GetOr(0);
    if since < 0 then 0 else since
  }

  ghost function Apply<T>(c: Config<T>, s: State<T>, step: Step): State<T>
    requires ValidConfig(c) && Enabled(c, s, step)
  {
    match step
    case Spawn(ok) =>
      var slot := s.coordinator.slot;
      if ok then
        s.(workers := s.workers[slot := Spawned],
           coordinator := if slot + 1 < c.total then Spawning(slot + 1) else Checking)
      else s.(coordinator := Cancelling(slot))
    case CancelGate =>
      s.(gate := Cancelled(s.gate), workers := WakeWorkers(s.workers),
         coordinator := Draining(s.coordinator.slot, 0))
    case Drain =>
      if s.coordinator.drained < s.coordinator.slot then
        s.(coordinator := Draining(s.coordinator.slot, s.coordinator.drained + 1))
      else s.(coordinator := Done(Err(ThreadSpawnFailed)))
    case CheckReady => s.(coordinator := if s.gate.ready < c.total then Blocked else Releasing)
    case ReleaseGate(now) =>
      s.(gate := Released(s.gate, now), workers := WakeWorkers(s.workers), coordinator := Joining(0))
    case JoinWorker =>
      if s.coordinator.slot < c.total then s.(coordinator := Joining(s.coordinator.slot + 1))
      else s.(coordinator := Done(Merge(WorkOf(s.workers), c.count)))
    case Enter(slot) =>
      var gate := Arrived(s.gate);
      s.(gate := gate, coordinator := WakeCoordinator(s.coordinator),
         workers := WakeWorkers(s.workers)[slot := Proceed(c, gate, slot)])
    case Recheck(slot) => s.(workers := s.workers[slot := Proceed(c, s.gate, slot)])
    case Invoke(slot, pause, elapsed) =>
      var w := s.workers[slot];
      s.(workers := s.workers[slot := AfterInvocation(c, w, pause, elapsed)],
         log := s.log + [w.next], spent := s.spent[w.next := elapsed])
    case Finish(slot, pause) =>
      var w := s.workers[slot];
      s.(workers := s.workers[slot :=
           Finished(WorkerResults(w.results, w.firstPanic, Elapsed(s.gate, w.clock + pause)))])
    case SpuriousWorker(slot) => s.(workers := s.workers[slot := Woken])
    case SpuriousCoordinator => s.(coordinator := Checking)
  }

  /** The critical sections of the protocol are the methods of the gate: what a step does to the state
      under the mutex is one call, and whether the thread has to wait afterwards is its answer. */
  method TakeStep<T>(gate: Gate, ghost c: Config<T>, ghost s: State<T>, step: Step, workerCount: nat) returns (wait: bool)
    requires ValidConfig(c) && Enabled(c, s, step) && gate.State() == s.gate && workerCount == c.total
    modifies gate
    ensures gate.State() == Apply(c, s, step).gate
    ensures step.Enter? || step.Recheck? ==> wait == Apply(c, s, step).workers[step.slot].Waiting?
    ensures step.CheckReady? ==> wait == Apply(c, s, step).coordinator.Blocked?
  {
    wait := false;
    match step {
      case Enter(_) => wait := gate.Arrive();
      case Recheck(_) => wait := gate.LookAgain();
      case CheckReady =>
        var all := gate.AllReady(workerCount);
        wait := !all;
      case ReleaseGate(now) => gate.Release(now);
      case CancelGate => gate.Cancel();
      case _ =>
    }
  }

  /** A run: consecutive states, each following from the one before by an enabled step. */
  ghost predicate IsRun<T>(c: Config<T>, states: seq<State<T>>, steps: seq<Step>)
    requires ValidConfig(c)
  {
    && |states| == |steps| + 1 && Initial(c, states[0])
    && forall i :: 0 <= i < |steps| ==> Follows(c, states[i], steps[i], states[i + 1])
  }

  ghost predicate Follows<T>(c: Config<T>, s: State<T>, step: Step, after: State<T>)
    requires ValidConfig(c)
  {
    Enabled(c, s, step) && after == Apply(c, s, step)
  }

  // ---- What every reachable state satisfies ----

  function Arrivals<T>(workers: seq<Worker<T>>): (n: nat)
    ensures n <= |workers|
  {
    if workers == [] then 0
    else
      var w := workers[|workers| - 1];
      Arrivals(workers[..|workers| - 1]) + if w.Unspawned? || w.Spawned? then 0 else 1
  }

  /** Time the invocations `from..till` took. */
  function TimeSpent(spent: map<nat, nat>, from: nat, till: nat): nat
    decreases till
  {
    if till <= from then 0
    else TimeSpent(spent, from, till - 1) + if till - 1 in spent then spent[till - 1] else 0
  }

  ghost predicate WorkerOk<T>(c: Config<T>, s: State<T>, slot: nat)
    requires ValidConfig(c) && slot < c.total == |s.workers|
  {
    var from, till := c.bounds[slot], c.bounds[slot + 1];
    match s.workers[slot]
    case Unspawned => true
    case Spawned => true
    case Woken => true
    case Waiting => MustWait(s.gate)
    case Running(next, clock, results, firstPanic) =>
      && s.gate.startedAt.Some? && from <= next <= till
      && results == Returned(c.outcome, from, next) && firstPanic == LeastPanic(c.outcome, from, next)
      && s.gate.startedAt.value + TimeSpent(s.spent, from, next) <= clock
    case Finished(work) =>
      if s.gate.startedAt.Some?
      then DidRange(c.outcome, from, till, work) && TimeSpent(s.spent, from, till) <= work.duration
      else s.gate.cancelled
  }

  /** Index up to which the range of `slot` has been invoked. */
  ghost function Progress<T>(c: Config<T>, s: State<T>, slot: nat): nat
    requires ValidConfig(c) && slot < c.total == |s.workers|
  {
    match s.workers[slot]
    case Running(next, _, _, _) => next
    case Finished(_) => if s.gate.startedAt.Some? then c.bounds[slot + 1] else c.bounds[slot]
    case _ => c.bounds[slot]
  }

  /** Every index below the progress of its worker was invoked exactly once, every other never. */
  ghost predicate LogOk<T>(c: Config<T>, s: State<T>)
    requires ValidConfig(c) && |s.workers| == c.total
  {
    && (forall i :: i in s.log ==> i < c.count)
    && (forall slot :: 0 <= slot < c.total ==> LoggedUpTo(s.log, c.bounds[slot], c.bounds[slot + 1], Progress(c, s, slot)))
  }

  ghost predicate LoggedUpTo(log: seq<nat>, from: nat, till: nat, progress: nat) {
    forall i: nat :: from <= i < till ==> multiset(log)[i] == if i < progress then 1 else 0
  }

  ghost predicate SpawnedBelow<T>(workers: seq<Worker<T>>, k: nat) {
    k <= |workers| && forall i :: 0 <= i < |workers| ==> (workers[i].Unspawned? <==> i >= k)
  }

  ghost predicate CoordinatorOk<T>(c: Config<T>, s: State<T>)
    requires |s.workers| == c.total
  {
    var closed := MustWait(s.gate);
    var released := s.gate.startedAt.Some? && !s.gate.cancelled && s.gate.ready == c.total;
    match s.coordinator
    case Spawning(slot) => closed && slot < c.total && SpawnedBelow(s.workers, slot)
    case Cancelling(slot) => closed && slot < c.total && SpawnedBelow(s.workers, slot)
    case Draining(slot, drained) =>
      && s.gate.cancelled && s.gate.startedAt.None? && drained <= slot < c.total
      && SpawnedBelow(s.workers, slot)
    case Checking => closed && SpawnedBelow(s.workers, c.total)
    case Blocked => closed && SpawnedBelow(s.workers, c.total) && s.gate.ready < c.total
    case Releasing => closed && s.gate.ready == c.total
    case Joining(slot) =>
      released && slot <= c.total && forall i :: 0 <= i < slot ==> s.workers[i].Finished?
    case Done(batch) =>
      || (s.gate.cancelled && s.gate.startedAt.None? && batch == Err(ThreadSpawnFailed))
      || (released && (forall i :: 0 <= i < |s.workers| ==> s.workers[i].Finished?)
          && batch == Merge(WorkOf(s.workers), c.count))
  }

  ghost predicate Inv<T>(c: Config<T>, s: State<T>) {
    && ValidConfig(c) && |s.workers| == c.total
    && s.gate.ready == Arrivals(s.workers)
    && CoordinatorOk(c, s)
    && (forall slot :: 0 <= slot < c.total ==> WorkerOk(c, s, slot))
    && LogOk(c, s) && (s.gate.startedAt.None? ==> s.log == [])
  }

  // ---- Counting arrivals ----

  lemma {:induction false} ArrivalsUpdate<T>(workers: seq<Worker<T>>, slot: nat, w: Worker<T>)
    requires slot < |workers|
    ensures Arrivals(workers[slot := w])
         == Arrivals(workers)
            - (if workers[slot].Unspawned? || workers[slot].Spawned? then 0 else 1)
            + (if w.Unspawned? || w.Spawned? then 0 else 1)
  {
    var last := |workers| - 1;
    if slot < last {
      assert workers[slot := w][..last] == workers[..last][slot := w];
      ArrivalsUpdate(workers[..last], slot, w);
    } else {
      assert workers[slot := w][..last] == workers[..last];
    }
  }

  lemma {:induction false} ArrivalsWake<T>(workers: seq<Worker<T>>)
    ensures Arrivals(WakeWorkers(workers)) == Arrivals(workers)
  {
    if workers != [] {
      var last := |workers| - 1;
      assert WakeWorkers(workers)[..last] == WakeWorkers(workers[..last]);
      ArrivalsWake(workers[..last]);
    }
  }

  lemma {:induction false} NotAllArrived<T>(workers: seq<Worker<T>>)
    ensures Arrivals(workers) < |workers| <==> exists i :: 0 <= i < |workers| && (workers[i].Unspawned? || workers[i].Spawned?)
  {
    if workers != [] {
      var last := |workers| - 1;
      NotAllArrived(workers[..last]);
      if Arrivals(workers[..last]) < last {
        var i :| 0 <= i < last && (workers[..last][i].Unspawned? || workers[..last][i].Spawned?);
        assert workers[i] == workers[..last][i];
      }
      assert forall i :: 0 <= i < last ==> workers[i] == workers[..last][i];
    }
  }

  // ---- Preservation ----

  lemma {:induction false} NoArrivals<T>(workers: seq<Worker<T>>)
    requires forall i :: 0 <= i < |workers| ==> workers[i].Unspawned?
    ensures Arrivals(workers) == 0
  {
    if workers != [] { NoArrivals(workers[..|workers| - 1]); }
  }

  lemma {:induction false} InitialInv<T>(c: Config<T>, s: State<T>)
    requires ValidConfig(c) && Initial(c, s)
    ensures Inv(c, s)
  {
    NoArrivals(s.workers);
  }

  /** A step that leaves the release, the log and the times alone and changes no worker but `slot`,
      except for waking others. */
  lemma {:induction false} OthersKept<T>(c: Config<T>, s: State<T>, t: State<T>, slot: nat)
    requires Inv(c, s) && |t.workers| == c.total && slot < c.total
    requires t.gate.startedAt == s.gate.startedAt && t.gate.cancelled == s.gate.cancelled
    requires t.log == s.log && t.spent == s.spent
    requires forall i :: 0 <= i < c.total && i != slot ==> Untouched(s.workers[i], t.workers[i])
    requires WorkerOk(c, t, slot) && Progress(c, t, slot) == Progress(c, s, slot)
    ensures LogOk(c, t) && forall i :: 0 <= i < c.total ==> WorkerOk(c, t, i)
  {
    forall i | 0 <= i < c.total
      ensures WorkerOk(c, t, i) && LoggedUpTo(t.log, c.bounds[i], c.bounds[i + 1], Progress(c, t, i))
    {
      assert WorkerOk(c, s, i) && LoggedUpTo(s.log, c.bounds[i], c.bounds[i + 1], Progress(c, s, i));
      if i != slot { assert Untouched(s.workers[i], t.workers[i]); }
    }
  }

  predicate Untouched<T(==)>(before: Worker<T>, after: Worker<T>) {
    after == before || (before.Waiting? && after.Woken?)
  }

  lemma {:induction false} SpawnKeeps<T>(c: Config<T>, s: State<T>, ok: bool)
    requires Inv(c, s) && Enabled(c, s, Spawn(ok))
    ensures Inv(c, Apply(c, s, Spawn(ok)))
  {
    var slot := s.coordinator.slot;
    ArrivalsUpdate(s.workers, slot, Spawned);
    assert WorkerOk(c, s, slot);
    OthersKept(c, s, Apply(c, s, Spawn(ok)), slot);
  }

  lemma {:induction false} CoordinatorKeeps<T>(c: Config<T>, s: State<T>, step: Step)
    requires Inv(c, s) && Enabled(c, s, step)
    requires step.Drain? || step.CheckReady? || step.JoinWorker? || step.SpuriousCoordinator?
    ensures Inv(c, Apply(c, s, step))
  {
    assert WorkerOk(c, s, 0);
    OthersKept(c, s, Apply(c, s, step), 0);
  }

  /** Releasing or cancelling while everybody still waits. */
  lemma {:induction false} OpeningKeeps<T>(c: Config<T>, s: State<T>, t: State<T>)
    requires Inv(c, s) && MustWait(s.gate) && t.workers == WakeWorkers(s.workers)
    requires t.log == s.log && t.spent == s.spent && s.log == []
    ensures LogOk(c, t) && (forall i :: 0 <= i < c.total ==> WorkerOk(c, t, i))
    ensures Arrivals(t.workers) == Arrivals(s.workers)
  {
    ArrivalsWake(s.workers);
    forall i | 0 <= i < c.total
      ensures WorkerOk(c, t, i) && LoggedUpTo(t.log, c.bounds[i], c.bounds[i + 1], Progress(c, t, i))
    {
      assert WorkerOk(c, s, i);
    }
  }

  lemma {:induction false} CancelKeeps<T>(c: Config<T>, s: State<T>)
    requires Inv(c, s) && Enabled(c, s, CancelGate)
    ensures Inv(c, Apply(c, s, CancelGate))
  {
    OpeningKeeps(c, s, Apply(c, s, CancelGate));
  }

  lemma {:induction false} ReleaseKeeps<T>(c: Config<T>, s: State<T>, now: nat)
    requires Inv(c, s) && Enabled(c, s, ReleaseGate(now))
    ensures Inv(c, Apply(c, s, ReleaseGate(now)))
  {
    OpeningKeeps(c, s, Apply(c, s, ReleaseGate(now)));
  }

  lemma {:induction false} EnterKeeps<T>(c: Config<T>, s: State<T>, slot: nat)
    requires Inv(c, s) && Enabled(c, s, Enter(slot))
    ensures Inv(c, Apply(c, s, Enter(slot)))
  {
    var t := Apply(c, s, Enter(slot));
    ArrivalsWake(s.workers);
    ArrivalsUpdate(WakeWorkers(s.workers), slot, t.workers[slot]);
    NotAllArrived(s.workers);
    assert s.workers[slot].Spawned?;
    OthersKept(c, s, t, slot);
  }

  lemma {:induction false} RecheckKeeps<T>(c: Config<T>, s: State<T>, slot: nat)
    requires Inv(c, s) && Enabled(c, s, Recheck(slot))
    ensures Inv(c, Apply(c, s, Recheck(slot)))
  {
    var t := Apply(c, s, Recheck(slot));
    ArrivalsUpdate(s.workers, slot, t.workers[slot]);
    OthersKept(c, s, t, slot);
  }

  lemma {:induction false} SpuriousWakeKeeps<T>(c: Config<T>, s: State<T>, slot: nat)
    requires Inv(c, s) && Enabled(c, s, SpuriousWorker(slot))
    ensures Inv(c, Apply(c, s, SpuriousWorker(slot)))
  {
    var t := Apply(c, s, SpuriousWorker(slot));
    ArrivalsUpdate(s.workers, slot, Woken);
    OthersKept(c, s, t, slot);
  }

  lemma {:induction false} FinishKeeps<T>(c: Config<T>, s: State<T>, slot: nat, pause: nat)
    requires Inv(c, s) && Enabled(c, s, Finish(slot, pause))
    ensures Inv(c, Apply(c, s, Finish(slot, pause)))
  {
    var t := Apply(c, s, Finish(slot, pause));
    assert WorkerOk(c, s, slot);
    ArrivalsUpdate(s.workers, slot, t.workers[slot]);
    OthersKept(c, s, t, slot);
  }

  lemma {:induction false} TimeSpentElsewhere(spent: map<nat, nat>, from: nat, till: nat, i: nat, elapsed: nat)
    requires !(from <= i < till)
    ensures TimeSpent(spent[i := elapsed], from, till) == TimeSpent(spent, from, till)
    decreases till
  {
    if from < till { TimeSpentElsewhere(spent, from, till - 1, i, elapsed); }
  }

  lemma {:induction false} InvokeKeepsOwn<T>(c: Config<T>, s: State<T>, step: Step)
    requires ValidConfig(c) && |s.workers| == c.total && step.Invoke? && Enabled(c, s, step)
    requires WorkerOk(c, s, step.slot)
    ensures WorkerOk(c, Apply(c, s, step), step.slot)
  {
    var w := s.workers[step.slot];
    var from := c.bounds[step.slot];
    TimeSpentElsewhere(s.spent, from, w.next, w.next, step.elapsed);
    assert Returned(c.outcome, w.next, w.next) == [];
    ReturnedSplit(c.outcome, from, w.next, w.next + 1);
    LeastPanicSplit(c.outcome, from, w.next, w.next + 1);
  }

  lemma {:induction false} InvokeKeepsOther<T>(c: Config<T>, s: State<T>, step: Step, other: nat)
    requires Inv(c, s) && step.Invoke? && Enabled(c, s, step) && other < c.total && other != step.slot
    ensures WorkerOk(c, Apply(c, s, step), other)
  {
    var slot, next := step.slot, s.workers[step.slot].next;
    assert WorkerOk(c, s, slot) && WorkerOk(c, s, other);
    assert slot < other ==> c.bounds[slot + 1] <= c.bounds[other];
    assert other < slot ==> c.bounds[other + 1] <= c.bounds[slot];
    TimeSpentElsewhere(s.spent, c.bounds[other], c.bounds[other + 1], next, step.elapsed);
    if s.workers[other].Running? {
      TimeSpentElsewhere(s.spent, c.bounds[other], s.workers[other].next, next, step.elapsed);
    }
  }

  lemma {:induction false} InvokeKeepsLog<T>(c: Config<T>, s: State<T>, step: Step)
    requires Inv(c, s) && step.Invoke? && Enabled(c, s, step)
    ensures LogOk(c, Apply(c, s, step))
  {
    var slot, t := step.slot, Apply(c, s, step);
    var next := s.workers[slot].next;
    assert WorkerOk(c, s, slot);
    assert next < c.bounds[slot + 1] <= c.bounds[c.total] == c.count;
    assert multiset(t.log) == multiset(s.log) + multiset{next};
    forall other | 0 <= other < c.total
      ensures LoggedUpTo(t.log, c.bounds[other], c.bounds[other + 1], Progress(c, t, other))
    {
      assert LoggedUpTo(s.log, c.bounds[other], c.bounds[other + 1], Progress(c, s, other));
      assert slot < other ==> c.bounds[slot + 1] <= c.bounds[other];
      assert other < slot ==> c.bounds[other + 1] <= c.bounds[slot];
    }
  }

  lemma {:induction false} InvokeKeeps<T>(c: Config<T>, s: State<T>, step: Step)
    requires Inv(c, s) && step.Invoke? && Enabled(c, s, step)
    ensures Inv(c, Apply(c, s, step))
  {
    var slot, t := step.slot, Apply(c, s, step);
    ArrivalsUpdate(s.workers, slot, t.workers[slot]);
    assert WorkerOk(c, s, slot);
    InvokeKeepsLog(c, s, step);
    forall other | 0 <= other < c.total ensures WorkerOk(c, t, other) {
      if other == slot { InvokeKeepsOwn(c, s, step); } else { InvokeKeepsOther(c, s, step, other); }
    }
  }

  lemma {:induction false} StepKeeps<T>(c: Config<T>, s: State<T>, step: Step)
    requires Inv(c, s) && Enabled(c, s, step)
    ensures Inv(c, Apply(c, s, step))
  {
    match step
    case Spawn(ok) => SpawnKeeps(c, s, ok);
    case CancelGate => CancelKeeps(c, s);
    case ReleaseGate(now) => ReleaseKeeps(c, s, now);
    case Enter(slot) => EnterKeeps(c, s, slot);
    case Recheck(slot) => RecheckKeeps(c, s, slot);
    case Invoke(slot, pause, elapsed) => InvokeKeeps(c, s, step);
    case Finish(slot, pause) => FinishKeeps(c, s, slot, pause);
    case SpuriousWorker(slot) => SpuriousWakeKeeps(c, s, slot);
    case _ => CoordinatorKeeps(c, s, step);
  }

  lemma {:induction false} RunInv<T>(c: Config<T>, states: seq<State<T>>, steps: seq<Step>, i: nat)
    requires ValidConfig(c) && IsRun(c, states, steps) && i < |states|
    ensures Inv(c, states[i])
  {
    if i == 0 {
      InitialInv(c, states[0]);
    } else {
      RunInv(c, states, steps, i - 1);
      assert Follows(c, states[i - 1], steps[i - 1], states[i]);
      StepKeeps(c, states[i - 1], steps[i - 1]);
    }
  }

  // ---- Theorems about every run ----

  /** No invocation happens before every worker has arrived and the gate has been released; the
      gate is never both released and cancelled; a cancelled batch runs nothing. */
  lemma {:induction false} GateSafety<T>(c: Config<T>, states: seq<State<T>>, steps: seq<Step>, i: nat)
    requires ValidConfig(c) && IsRun(c, states, steps) && i < |states|
    ensures i < |steps| && steps[i].Invoke? ==> states[i].gate.ready == c.total && states[i].gate.startedAt.Some?
    ensures !(states[i].gate.startedAt.Some? && states[i].gate.cancelled)
    ensures states[i].gate.cancelled ==> states[i].log == []
  {
    RunInv(c, states, steps, i);
    if i < |steps| && steps[i].Invoke? {
      assert Follows(c, states[i], steps[i], states[i + 1]);
      assert WorkerOk(c, states[i], steps[i].slot);
    }
  }

  /** A finished batch is a function of the outcomes alone, each index having been invoked exactly
      once, or it is the spawn failure with nothing invoked. */
  lemma {:induction false} BatchIndependentOfSchedule<T(!new)>(c: Config<T>, states: seq<State<T>>, steps: seq<Step>, i: nat)
    requires ValidConfig(c) && IsRun(c, states, steps) && i < |states| && states[i].coordinator.Done?
    ensures (states[i].coordinator.batch == Err(ThreadSpawnFailed) && states[i].log == [])
         || (IsBatchOf(c.outcome, c.count, states[i].coordinator.batch)
             && (forall j :: j in states[i].log ==> j < c.count)
             && (forall j :: 0 <= j < c.count ==> multiset(states[i].log)[j] == 1))
  {
    RunInv(c, states, steps, i);
    var s := states[i];
    if !s.gate.cancelled {
      var work := WorkOf(s.workers);
      forall slot | 0 <= slot < c.total
        ensures DidRange(c.outcome, c.bounds[slot], c.bounds[slot + 1], work[slot])
      {
        assert WorkerOk(c, s, slot);
      }
      MergeOfRanges(c.outcome, c.bounds, c.count, work);
      forall j: nat | j < c.count ensures multiset(s.log)[j] == 1 {
        var slot := OwnerOf(c.bounds, j, c.total);
        assert LoggedUpTo(s.log, c.bounds[slot], c.bounds[slot + 1], Progress(c, s, slot));
      }
    }
  }

  /** The slot whose range holds an index. */
  lemma {:induction false} OwnerOf(bounds: seq<nat>, i: nat, below: nat) returns (slot: nat)
    requires below < |bounds| && bounds[0] == 0 && i < bounds[below]
    ensures slot < below && bounds[slot] <= i < bounds[slot + 1]
    decreases below
  {
    if i < bounds[below - 1] { slot := OwnerOf(bounds, i, below - 1); } else { slot := below - 1; }
  }

  /** The time the invocations of one worker took together fits in the reported duration. */
  lemma {:induction false} WorkerTimeWithinDuration<T(!new)>(c: Config<T>, states: seq<State<T>>, steps: seq<Step>, i: nat, slot: nat)
    requires ValidConfig(c) && IsRun(c, states, steps) && i < |states| && slot < c.total
    requires states[i].coordinator.Done? && states[i].coordinator.batch.Ok?
    ensures TimeSpent(states[i].spent, c.bounds[slot], c.bounds[slot + 1]) <= states[i].coordinator.batch.value.duration
  {
    RunInv(c, states, steps, i);
    var s := states[i];
    assert WorkerOk(c, s, slot);
    assert s.workers[slot].Finished?;
    assert WorkOf(s.workers)[slot].duration <= LongestDuration(WorkOf(s.workers));
  }

  /** No reachable state is stuck: until the batch is done, some step other than a spurious wakeup
      can be taken. */
  lemma {:induction false} NeverStuck<T>(c: Config<T>, states: seq<State<T>>, steps: seq<Step>, i: nat) returns (step: Step)
    requires ValidConfig(c) && IsRun(c, states, steps) && i < |states| && !states[i].coordinator.Done?
    ensures Enabled(c, states[i], step) && !Spurious(step) && (step.Spawn? ==> step.ok)
  {
    RunInv(c, states, steps, i);
    step := SomeStep(c, states[i]);
  }

  lemma {:induction false} SomeStep<T>(c: Config<T>, s: State<T>) returns (step: Step)
    requires Inv(c, s) && !s.coordinator.Done?
    ensures Enabled(c, s, step) && !Spurious(step) && (step.Spawn? ==> step.ok)
  {
    NotAllArrived(s.workers);
    if s.coordinator.Draining? && s.coordinator.drained < c.total { assert WorkerOk(c, s, s.coordinator.drained); }
    if s.coordinator.Joining? && s.coordinator.slot < c.total { assert WorkerOk(c, s, s.coordinator.slot); }
    match s.coordinator
    case Spawning(_) => step := Spawn(true);
    case Cancelling(_) => step := CancelGate;
    case Draining(slot, drained) =>
      if drained == slot || s.workers[drained].Finished? { step := Drain; }
      else { step := if s.workers[drained].Spawned? then Enter(drained) else Recheck(drained); }
    case Checking => step := CheckReady;
    case Blocked =>
      var slot :| 0 <= slot < c.total && (s.workers[slot].Unspawned? || s.workers[slot].Spawned?);
      step := Enter(slot);
    case Releasing => step := ReleaseGate(0);
    case Joining(slot) =>
      if slot == c.total || s.workers[slot].Finished? { step := JoinWorker; }
      else if s.workers[slot].Woken? { step := Recheck(slot); }
      else if s.workers[slot].next < c.bounds[slot + 1] { step := Invoke(slot, 0, 0); }
      else { step := Finish(slot, 0); }
  }

  // ---- Termination ----

  /** Steps a worker has yet to take, not counting repeated looks at the gate. */
  ghost function WorkerDistance<T>(c: Config<T>, s: State<T>, slot: nat): nat
    requires ValidConfig(c) && slot < c.total == |s.workers|
  {
    var width := c.bounds[slot + 1] - c.bounds[slot];
    match s.workers[slot]
    case Unspawned => 4 + width
    case Spawned => 3 + width
    case Waiting => 2 + width
    case Woken => 2 + width
    case Running(next, _, _, _) => if next <= c.bounds[slot + 1] then 1 + c.bounds[slot + 1] - next else 1
    case Finished(_) => 0
  }

  ghost function Distances<T>(c: Config<T>, s: State<T>, n: nat): nat
    requires ValidConfig(c) && n <= c.total == |s.workers|
  {
    if n == 0 then 0 else Distances(c, s, n - 1) + WorkerDistance(c, s, n - 1)
  }

  ghost function CoordinatorDistance<T>(c: Config<T>, coordinator: Coordinator<T>): nat {
    match coordinator
    case Spawning(slot) => 4 + c.total
    case Cancelling(slot) => 3 + slot
    case Draining(slot, drained) => if drained <= slot then 1 + slot - drained else 1
    case Checking => 3 + c.total
    case Blocked => 3 + c.total
    case Releasing => 2 + c.total
    case Joining(slot) => if slot <= c.total then 1 + c.total - slot else 1
    case Done(_) => 0
  }

  /** Threads about to look at the gate once more. */
  function Looks<T>(workers: seq<Worker<T>>): nat {
    if workers == [] then 0
    else Looks(workers[..|workers| - 1]) + if workers[|workers| - 1].Woken? then 1 else 0
  }

  ghost function Distance<T>(c: Config<T>, s: State<T>): nat
    requires ValidConfig(c) && c.total == |s.workers|
  {
    CoordinatorDistance(c, s.coordinator) + Distances(c, s, c.total)
  }

  function LooksLeft<T>(s: State<T>): nat { Looks(s.workers) + if s.coordinator.Checking? then 1 else 0 }

  lemma {:induction false} LooksUpdate<T>(workers: seq<Worker<T>>, slot: nat, w: Worker<T>)
    requires slot < |workers|
    ensures Looks(workers[slot := w])
         == Looks(workers) - (if workers[slot].Woken? then 1 else 0) + (if w.Woken? then 1 else 0)
  {
    var last := |workers| - 1;
    if slot < last {
      assert workers[slot := w][..last] == workers[..last][slot := w];
      LooksUpdate(workers[..last], slot, w);
    } else {
      assert workers[slot := w][..last] == workers[..last];
    }
  }

  lemma {:induction false} DistancesChange<T>(c: Config<T>, s: State<T>, t: State<T>, slot: nat, n: nat)
    requires ValidConfig(c) && |s.workers| == |t.workers| == c.total && n <= c.total
    requires forall i :: 0 <= i < n && i != slot ==> Untouched(s.workers[i], t.workers[i])
    ensures slot >= n ==> Distances(c, t, n) == Distances(c, s, n)
    ensures slot < n ==>
      Distances(c, t, n) == Distances(c, s, n) - WorkerDistance(c, s, slot) + WorkerDistance(c, t, slot)
  {
    if n > 0 {
      DistancesChange(c, s, t, slot, n - 1);
      if n - 1 != slot { assert Untouched(s.workers[n - 1], t.workers[n - 1]); }
    }
  }

  /** The slot a step changes, or one past the last when it changes none. */
  function Touched<T>(c: Config<T>, s: State<T>, step: Step): nat {
    match step
    case Spawn(ok) => if ok && s.coordinator.Spawning? then s.coordinator.slot else c.total
    case Enter(slot) => slot
    case Recheck(slot) => slot
    case Invoke(slot, _, _) => slot
    case Finish(slot, _) => slot
    case SpuriousWorker(slot) => slot
    case _ => c.total
  }

  /** Every step that is not a spurious wakeup brings the batch closer to its end: the distance
      falls, or stays and fewer looks at the gate are left. */
  lemma {:induction false} MeasureFalls<T>(c: Config<T>, states: seq<State<T>>, steps: seq<Step>, i: nat)
    requires ValidConfig(c) && IsRun(c, states, steps) && i < |steps| && !Spurious(steps[i])
    ensures |states[i].workers| == |states[i + 1].workers| == c.total
    ensures Distance(c, states[i + 1]) < Distance(c, states[i])
         || (Distance(c, states[i + 1]) == Distance(c, states[i]) && LooksLeft(states[i + 1]) < LooksLeft(states[i]))
  {
    RunInv(c, states, steps, i);
    assert Follows(c, states[i], steps[i], states[i + 1]);
    StepFalls(c, states[i], steps[i]);
  }

  lemma {:induction false} StepFalls<T>(c: Config<T>, s: State<T>, step: Step)
    requires Inv(c, s) && Enabled(c, s, step) && !Spurious(step)
    ensures |Apply(c, s, step).workers| == c.total
    ensures Distance(c, Apply(c, s, step)) < Distance(c, s)
         || (Distance(c, Apply(c, s, step)) == Distance(c, s) && LooksLeft(Apply(c, s, step)) < LooksLeft(s))
  {
    if Touched(c, s, step) < c.total {
      assert WorkerOk(c, s, Touched(c, s, step));
      WorkerStepFalls(c, s, step);
    } else {
      CoordinatorStepFalls(c, s, step);
    }
  }

  lemma {:induction false} WorkerStepFalls<T>(c: Config<T>, s: State<T>, step: Step)
    requires ValidConfig(c) && |s.workers| == c.total && Enabled(c, s, step) && !Spurious(step)
    requires CoordinatorOk(c, s) && Touched(c, s, step) < c.total && WorkerOk(c, s, Touched(c, s, step))
    ensures |Apply(c, s, step).workers| == c.total
    ensures Distance(c, Apply(c, s, step)) < Distance(c, s)
         || (Distance(c, Apply(c, s, step)) == Distance(c, s) && LooksLeft(Apply(c, s, step)) < LooksLeft(s))
  {
    var t := Apply(c, s, step);
    var slot := Touched(c, s, step);
    DistancesChange(c, s, t, slot, c.total);
    if step.Recheck? { LooksUpdate(s.workers, slot, t.workers[slot]); }
  }

  lemma {:induction false} CoordinatorStepFalls<T>(c: Config<T>, s: State<T>, step: Step)
    requires Inv(c, s) && Enabled(c, s, step) && !Spurious(step) && Touched(c, s, step) >= c.total
    ensures |Apply(c, s, step).workers| == c.total
    ensures Distance(c, Apply(c, s, step)) < Distance(c, s)
         || (Distance(c, Apply(c, s, step)) == Distance(c, s) && LooksLeft(Apply(c, s, step)) < LooksLeft(s))
  {
    DistancesChange(c, s, Apply(c, s, step), Touched(c, s, step), c.total);
  }
}
