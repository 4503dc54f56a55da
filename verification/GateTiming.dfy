/** How long a batch can take whose workers lose little time outside their invocations. */
module GateTiming {
  import opened Common
  import opened Workload
  import opened StartGate

  /** The worker of the step loses at most `gap` before its invocation, or before it ends. */
  predicate Prompt(step: Step, gap: nat) { (step.Invoke? || step.Finish?) ==> step.pause <= gap }

  ghost predicate AllPrompt(steps: seq<Step>, gap: nat) { forall k :: 0 <= k < |steps| ==> Prompt(steps[k], gap) }

  /** Time of some invocations, each with its gap. */
  function WithGaps(spent: map<nat, nat>, from: nat, till: nat, gap: nat): nat
    decreases till
  {
    if till <= from then 0 else WithGaps(spent, from, till - 1, gap) + gap + if till - 1 in spent then spent[till - 1] else 0
  }

  /** The clock of a worker is at most the release plus its invocations and gaps. */
  ghost predicate OnTime<T>(c: Config<T>, s: State<T>, slot: nat, gap: nat)
    requires ValidConfig(c) && slot < c.total == |s.workers|
  {
    var from := c.bounds[slot];
    match s.workers[slot]
    case Running(next, clock, _, _) =>
      s.gate.startedAt.Some? && clock <= s.gate.startedAt.value + WithGaps(s.spent, from, next, gap)
    case Finished(work) => s.gate.startedAt.Some? ==> work.duration <= WithGaps(s.spent, from, c.bounds[slot + 1], gap) + gap
    case _ => true
  }

  lemma {:induction false} GapsElsewhere(spent: map<nat, nat>, from: nat, till: nat, gap: nat, i: nat, elapsed: nat)
    requires !(from <= i < till)
    ensures WithGaps(spent[i := elapsed], from, till, gap) == WithGaps(spent, from, till, gap)
    decreases till
  {
    if from < till { GapsElsewhere(spent, from, till - 1, gap, i, elapsed); }
  }

  lemma {:induction false} InvokeOnTime<T>(c: Config<T>, s: State<T>, step: Step, slot: nat, gap: nat)
    requires Inv(c, s) && step.Invoke? && Enabled(c, s, step) && Prompt(step, gap) && slot < c.total && OnTime(c, s, slot, gap)
    ensures OnTime(c, Apply(c, s, step), slot, gap)
  {
    var from, next := c.bounds[slot], s.workers[step.slot].next;
    assert WorkerOk(c, s, step.slot) && WorkerOk(c, s, slot);
    assert step.slot < slot ==> c.bounds[step.slot + 1] <= from;
    assert slot < step.slot ==> c.bounds[slot + 1] <= c.bounds[step.slot];
    if slot == step.slot {
      GapsElsewhere(s.spent, from, next, gap, next, step.elapsed);
    } else {
      GapsElsewhere(s.spent, from, c.bounds[slot + 1], gap, next, step.elapsed);
      if s.workers[slot].Running? { GapsElsewhere(s.spent, from, s.workers[slot].next, gap, next, step.elapsed); }
    }
  }

  lemma {:induction false} StepOnTime<T>(c: Config<T>, s: State<T>, step: Step, slot: nat, gap: nat)
    requires Inv(c, s) && Enabled(c, s, step) && Prompt(step, gap) && slot < c.total && OnTime(c, s, slot, gap)
    ensures |Apply(c, s, step).workers| == c.total && OnTime(c, Apply(c, s, step), slot, gap)
  {
    assert WorkerOk(c, s, slot);
    if step.Invoke? { InvokeOnTime(c, s, step, slot, gap); }
  }

  lemma {:induction false} RunOnTime<T>(c: Config<T>, states: seq<State<T>>, steps: seq<Step>, i: nat, slot: nat, gap: nat)
    requires ValidConfig(c) && IsRun(c, states, steps) && i < |states| && slot < c.total && AllPrompt(steps, gap)
    ensures |states[i].workers| == c.total && OnTime(c, states[i], slot, gap)
  {
    if i > 0 {
      RunOnTime(c, states, steps, i - 1, slot, gap);
      RunInv(c, states, steps, i - 1);
      assert Follows(c, states[i - 1], steps[i - 1], states[i]);
      StepOnTime(c, states[i - 1], steps[i - 1], slot, gap);
    }
  }

  lemma {:induction false} GapsBounded(spent: map<nat, nat>, from: nat, till: nat, most: nat, gap: nat)
    requires from <= till && forall i: nat :: from <= i < till && i in spent ==> spent[i] <= most
    ensures WithGaps(spent, from, till, gap) <= (till - from) * (most + gap)
    decreases till
  {
    if from < till {
      GapsBounded(spent, from, till - 1, most, gap);
      assert (till - from) * (most + gap) == (till - 1 - from) * (most + gap) + (most + gap);
    }
  }

  /** The worker that decides the duration of the batch had no more than its invocations and gaps. */
  lemma {:induction false} SlowestOnTime<T(!new)>(c: Config<T>, states: seq<State<T>>, steps: seq<Step>, i: nat, gap: nat) returns (slot: nat)
    requires ValidConfig(c) && IsRun(c, states, steps) && i < |states| && AllPrompt(steps, gap)
    requires states[i].coordinator.Done? && states[i].coordinator.batch.Ok?
    ensures slot < c.total && c.bounds[slot] <= c.bounds[slot + 1]
    ensures states[i].coordinator.batch.value.duration <= WithGaps(states[i].spent, c.bounds[slot], c.bounds[slot + 1], gap) + gap
  {
    RunInv(c, states, steps, i);
    var s := states[i];
    var work := WorkOf(s.workers);
    slot :| 0 <= slot < |work| && work[slot].duration == LongestDuration(work);
    RunOnTime(c, states, steps, i, slot, gap);
    assert s.workers[slot].Finished?;
  }

  lemma {:induction false} GapsWithin(spent: map<nat, nat>, from: nat, till: nat, width: nat, most: nat, gap: nat)
    requires from <= till <= from + width && forall j :: j in spent ==> spent[j] <= most
    ensures WithGaps(spent, from, till, gap) <= width * (most + gap)
  {
    GapsBounded(spent, from, till, most, gap);
    ShorterRange(till - from, width, most + gap);
  }

  /** Workers with at most `width` invocations of at most `most` each, and at most `gap` before each and
      after the last, are done within that many of the two together and one more gap. */
  lemma {:induction false} BatchWithin<T(!new)>(c: Config<T>, states: seq<State<T>>, steps: seq<Step>, i: nat, width: nat, most: nat, gap: nat)
    requires ValidConfig(c) && IsRun(c, states, steps) && i < |states| && AllPrompt(steps, gap)
    requires states[i].coordinator.Done? && states[i].coordinator.batch.Ok?
    requires forall slot :: 0 <= slot < c.total ==> c.bounds[slot + 1] - c.bounds[slot] <= width
    requires forall j :: j in states[i].spent ==> states[i].spent[j] <= most
    ensures states[i].coordinator.batch.value.duration <= width * (most + gap) + gap
  {
    var slot := SlowestOnTime(c, states, steps, i, gap);
    GapsWithin(states[i].spent, c.bounds[slot], c.bounds[slot + 1], width, most, gap);
  }

  lemma {:induction false} ShorterRange(a: nat, b: nat, most: nat)
    requires a <= b
    ensures a * most <= b * most
  {
  }
}
