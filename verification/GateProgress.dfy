/** Every run of the batch protocol can be brought to its end, and every batch has a run in which all
    its workers are spawned. */
module GateProgress {
  import opened Common
  import opened Workload
  import opened StartGate

  /** No spawn failed so far. */
  ghost predicate Untroubled<T>(s: State<T>) {
    !s.gate.cancelled && !s.coordinator.Cancelling? && !s.coordinator.Draining?
  }

  lemma {:induction false} OneStepFurther<T>(c: Config<T>, states: seq<State<T>>, steps: seq<Step>, step: Step)
    requires ValidConfig(c) && IsRun(c, states, steps) && Enabled(c, states[|steps|], step)
    ensures IsRun(c, states + [Apply(c, states[|steps|], step)], steps + [step])
  {
    var ss, ts := states + [Apply(c, states[|steps|], step)], steps + [step];
    forall i | 0 <= i < |ts| ensures Follows(c, ss[i], ts[i], ss[i + 1]) {
      if i < |steps| { assert Follows(c, states[i], steps[i], states[i + 1]); }
    }
  }

  lemma {:induction false} StepStaysUntroubled<T>(c: Config<T>, s: State<T>, step: Step)
    requires ValidConfig(c) && Enabled(c, s, step) && Untroubled(s) && (step.Spawn? ==> step.ok)
    ensures Untroubled(Apply(c, s, step))
  {
  }

  /** A run that is not done is a beginning of one that is, without another failing spawn. */
  lemma {:induction false} CanFinish<T>(c: Config<T>, states: seq<State<T>>, steps: seq<Step>)
    returns (ss: seq<State<T>>, ts: seq<Step>)
    requires ValidConfig(c) && IsRun(c, states, steps) && |states[|steps|].workers| == c.total
    ensures IsRun(c, ss, ts) && states <= ss && steps <= ts && ss[|ts|].coordinator.Done?
    ensures Untroubled(states[|steps|]) ==> Untroubled(ss[|ts|])
    decreases Distance(c, states[|steps|]), LooksLeft(states[|steps|])
  {
    var s := states[|steps|];
    if s.coordinator.Done? { return states, steps; }
    var step := NeverStuck(c, states, steps, |steps|);
    OneStepFurther(c, states, steps, step);
    RunInv(c, states, steps, |steps|);
    StepFalls(c, s, step);
    if Untroubled(s) { StepStaysUntroubled(c, s, step); }
    ss, ts := CanFinish(c, states + [Apply(c, s, step)], steps + [step]);
  }

  /** Every batch has a run that ends with the outcome of all its invocations. */
  lemma {:induction false} CompleteRunExists<T(!new)>(c: Config<T>) returns (states: seq<State<T>>, steps: seq<Step>)
    requires ValidConfig(c)
    ensures IsRun(c, states, steps) && states[|steps|].coordinator.Done?
    ensures IsBatchOf(c.outcome, c.count, states[|steps|].coordinator.batch)
  {
    var s := State(CLOSED, Spawning(0), seq(c.total, i => Unspawned), [], map[]);
    states, steps := CanFinish(c, [s], []);
    RunInv(c, states, steps, |steps|);
    BatchIndependentOfSchedule(c, states, steps, |steps|);
  }
}
