/** Every outcome the executor can be thought to hand over has a run of the batch protocol behind it:
    any results, and any duration in which each worker has the time for its invocations. */
module GateReplay {
  import opened Common
  import opened Workload
  import opened StartGate
  import opened GateProgress

  /** How long each invocation takes, and how long the batch. */
  datatype Timing = Timing(took: nat -> nat, duration: nat)

  function Took(took: nat -> nat, from: nat, till: nat): nat
    decreases till
  {
    if till <= from then 0 else Took(took, from, till - 1) + took(till - 1)
  }

  /** Every worker has the time for its range. */
  ghost predicate Roomy<T>(c: Config<T>, t: Timing)
    requires ValidConfig(c)
  {
    forall slot: nat :: slot < c.total ==> Took(t.took, c.bounds[slot], c.bounds[slot + 1]) <= t.duration
  }

  /** A worker that loses no time before its last invocation and then uses up the duration. */
  ghost predicate InTime<T>(c: Config<T>, s: State<T>, t: Timing, slot: nat)
    requires ValidConfig(c) && slot < c.total == |s.workers|
  {
    match s.workers[slot]
    case Running(next, clock, _, _) =>
      s.gate.startedAt.Some? && clock == s.gate.startedAt.value + Took(t.took, c.bounds[slot], next)
    case Finished(work) => s.gate.startedAt.Some? ==> work.duration == t.duration
    case _ => true
  }

  ghost predicate SpentAs<T>(s: State<T>, t: Timing) {
    (forall j :: j in s.log ==> j in s.spent) && (forall j :: j in s.spent ==> s.spent[j] == t.took(j))
  }

  ghost predicate OnSchedule<T>(c: Config<T>, s: State<T>, t: Timing)
    requires ValidConfig(c)
  {
    |s.workers| == c.total && SpentAs(s, t) && forall slot: nat :: slot < c.total ==> InTime(c, s, t, slot)
  }

  /** The same step, taking the time it has to. */
  ghost function Timed<T>(c: Config<T>, s: State<T>, t: Timing, step: Step): Step
    requires ValidConfig(c) && Enabled(c, s, step) && Roomy(c, t)
  {
    match step
    case Invoke(slot, _, _) => Invoke(slot, 0, t.took(s.workers[slot].next))
    case Finish(slot, _) => Finish(slot, t.duration - Took(t.took, c.bounds[slot], c.bounds[slot + 1]))
    case _ => step
  }

  lemma {:induction false} StaysInTime<T>(c: Config<T>, s: State<T>, t: Timing, step: Step, slot: nat)
    requires Inv(c, s) && Enabled(c, s, step) && Roomy(c, t) && slot < c.total && InTime(c, s, t, slot)
    requires step == Timed(c, s, t, step)
    ensures |Apply(c, s, step).workers| == c.total && InTime(c, Apply(c, s, step), t, slot)
  {
    assert WorkerOk(c, s, slot);
  }

  lemma {:induction false} StaysOnSchedule<T>(c: Config<T>, s: State<T>, t: Timing, step: Step)
    requires Inv(c, s) && Enabled(c, s, step) && Roomy(c, t) && OnSchedule(c, s, t)
    requires step == Timed(c, s, t, step)
    ensures OnSchedule(c, Apply(c, s, step), t)
  {
    forall slot: nat | slot < c.total ensures |Apply(c, s, step).workers| == c.total && InTime(c, Apply(c, s, step), t, slot) {
      StaysInTime(c, s, t, step, slot);
    }
  }

  /** A run on schedule in which every spawn worked is a beginning of a finished one. */
  lemma {:induction false} FinishesOnSchedule<T>(c: Config<T>, t: Timing, states: seq<State<T>>, steps: seq<Step>)
    returns (ss: seq<State<T>>, ts: seq<Step>)
    requires ValidConfig(c) && Roomy(c, t) && IsRun(c, states, steps) && |states[|steps|].workers| == c.total
    requires Untroubled(states[|steps|]) && OnSchedule(c, states[|steps|], t)
    ensures IsRun(c, ss, ts) && ss[|ts|].coordinator.Done? && Untroubled(ss[|ts|]) && OnSchedule(c, ss[|ts|], t)
    decreases Distance(c, states[|steps|]), LooksLeft(states[|steps|])
  {
    var s := states[|steps|];
    if s.coordinator.Done? { return states, steps; }
    var next := NeverStuck(c, states, steps, |steps|);
    var step := Timed(c, s, t, next);
    OneStepFurther(c, states, steps, step);
    RunInv(c, states, steps, |steps|);
    StepFalls(c, s, step);
    StepStaysUntroubled(c, s, step);
    StaysOnSchedule(c, s, t, step);
    ss, ts := FinishesOnSchedule(c, t, states + [Apply(c, s, step)], steps + [step]);
  }

  lemma {:induction false} LongestIs<T>(work: seq<WorkerResults<T>>, d: nat)
    requires work != [] && forall i :: 0 <= i < |work| ==> work[i].duration == d
    ensures LongestDuration(work) == d
  {
  }

  lemma {:induction false} FinishedBatchIs<T(!new)>(c: Config<T>, t: Timing, states: seq<State<T>>, steps: seq<Step>, i: nat)
    requires ValidConfig(c) && IsRun(c, states, steps) && i < |states| && forall j: nat :: j < c.count ==> c.outcome(j).Some?
    requires states[i].coordinator.Done? && Untroubled(states[i]) && OnSchedule(c, states[i], t)
    ensures states[i].coordinator.batch.Ok? && states[i].coordinator.batch.value.duration == t.duration
    ensures forall j: nat :: j < c.count ==> j in states[i].spent
  {
    RunInv(c, states, steps, i);
    BatchIndependentOfSchedule(c, states, steps, i);
    var s := states[i];
    var work := WorkOf(s.workers);
    forall k: nat | k < |work| ensures work[k].duration == t.duration {
      assert s.workers[k].Finished? && InTime(c, s, t, k);
    }
    LongestIs(work, t.duration);
    forall j: nat | j < c.count ensures j in s.spent { assert multiset(s.log)[j] == 1; }
  }

  /** Invocations that all return, and a timing in which every worker has room: some run of the
      protocol ends with exactly these results and this duration, each invocation having taken its time. */
  lemma {:induction false} BatchRunExists<T(!new)>(c: Config<T>, t: Timing) returns (states: seq<State<T>>, steps: seq<Step>)
    requires ValidConfig(c) && Roomy(c, t) && forall j: nat :: j < c.count ==> c.outcome(j).Some?
    ensures IsRun(c, states, steps) && states[|steps|].coordinator.Done? && states[|steps|].coordinator.batch.Ok?
    ensures var batch := states[|steps|].coordinator.batch.value;
      batch.duration == t.duration && |batch.results| == c.count
      && forall j: nat :: j < c.count ==> c.outcome(j) == Some(batch.results[j])
    ensures forall j: nat :: j < c.count ==> j in states[|steps|].spent && states[|steps|].spent[j] == t.took(j)
  {
    var s := State(CLOSED, Spawning(0), seq(c.total, i => Unspawned), [], map[]);
    states, steps := FinishesOnSchedule(c, t, [s], []);
    FinishedBatchIs(c, t, states, steps, |steps|);
    BatchIndependentOfSchedule(c, states, steps, |steps|);
  }
}
