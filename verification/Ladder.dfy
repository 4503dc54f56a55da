/** The saturation ladder: excluded warmup and measured stage at every planned concurrency, stopped
    by the first phase that meets an abort rule. */
module Ladder {
  import opened Common
  import opened Attempts
  import opened Admission
  import opened StageSummary
  import Workload

  type Batch = Workload.Batch<Attempt>

  datatype Stage = Stage(
    status: PhaseStatus, concurrency: nat, planned: nat, durationNs: nat, durationMs: nat,
    summary: Summary, gates: seq<Gate>, attempts: seq<Attempt>)

  datatype Outcome = Outcome(warmups: seq<Warmup>, stages: seq<Stage>, abortReason: Option<AbortReason>)

  // ---- Rows ----

  function WarmupRow(batch: Batch, concurrency: nat, perWorker: nat, policy: Policy): Warmup {
    var row := SummarizeWarmup(batch.results, concurrency, concurrency * perWorker, batch.duration);
    row.(status := if WarmupAbort(row, policy.abortErrorPercent).Some? then Aborted else Complete)
  }

  function StageRow(batch: Batch, concurrency: nat, perWorker: nat, maxTokens: nat, policy: Policy): Stage {
    var summary := SummaryOf(batch.results, batch.duration, maxTokens);
    Stage(Complete, concurrency, concurrency * perWorker, ElapsedNanos(batch.duration), ElapsedMillis(batch.duration),
          summary, GatesOf(summary, policy), batch.results)
  }

  /** What the executor returned for the warmup and the stage at each position; `None` is an
      executor error, which ends the run without a report. */
  datatype Environment = Environment(warmup: nat -> Option<Batch>, stage: nat -> Option<Batch>)

  ghost predicate WarmupsFrom(o: Options, policy: Policy, env: Environment, warmups: seq<Warmup>) {
    |warmups| <= |o.concurrencyStages| && forall i: nat :: i < |warmups| ==>
      env.warmup(i).Some? && warmups[i] == WarmupRow(env.warmup(i).value, o.concurrencyStages[i], o.warmupRequestsPerWorker, policy)
  }

  ghost predicate StagesFrom(o: Options, policy: Policy, env: Environment, stages: seq<Stage>) {
    |stages| <= |o.concurrencyStages| && forall i: nat :: i < |stages| ==>
      env.stage(i).Some? && stages[i] == StageRow(env.stage(i).value, o.concurrencyStages[i], o.requestsPerWorker, o.maxTokens, policy)
  }

  ghost predicate RowsFrom(o: Options, policy: Policy, env: Environment, out: Outcome) {
    WarmupsFrom(o, policy, env, out.warmups) && StagesFrom(o, policy, env, out.stages)
  }

  // ---- The shape of a run ----

  /** The reached phases are a prefix of the plan, only the last of them meets an abort rule, and
      the reason is the one of that phase; without a reason the whole plan was reached. */
  ghost predicate IsLadder(n: nat, out: Outcome, abortErrorPercent: real) {
    var w, s := |out.warmups|, |out.stages|;
    && 1 <= w <= n && w - 1 <= s <= w
    && (forall i :: 0 <= i < s ==> WarmupAbort(out.warmups[i], abortErrorPercent).None?)
    && (forall i :: 0 <= i < w - 1 ==> StageAbort(out.stages[i].summary, abortErrorPercent).None?)
    && (s < w ==> out.abortReason == WarmupAbort(out.warmups[s], abortErrorPercent) && out.abortReason.Some?)
    && (s == w ==> out.abortReason == StageAbort(out.stages[s - 1].summary, abortErrorPercent))
    && (s == w < n ==> out.abortReason.Some?)
  }

  /** One warmup phase. */
  method ExecuteWarmup(batch: Batch, o: Options, policy: Policy, concurrency: nat) returns (warmup: Warmup, abort: Option<AbortReason>)
    ensures warmup == WarmupRow(batch, concurrency, o.warmupRequestsPerWorker, policy)
    ensures abort == WarmupAbort(warmup, policy.abortErrorPercent)
  {
    var count := concurrency * o.warmupRequestsPerWorker;
    warmup := SummarizeWarmup(batch.results, concurrency, count, batch.duration);
    abort := WarmupAbort(warmup, policy.abortErrorPercent);
    warmup := warmup.(status := if abort.Some? then Aborted else Complete);
  }

  method ExecuteStage(batch: Batch, o: Options, policy: Policy, concurrency: nat) returns (stage: Stage, abort: Option<AbortReason>)
    ensures stage == StageRow(batch, concurrency, o.requestsPerWorker, o.maxTokens, policy)
    ensures abort == StageAbort(stage.summary, policy.abortErrorPercent)
  {
    var planned := concurrency * o.requestsPerWorker;
    var attempts := batch.results;
    var summary := SummaryOf(attempts, batch.duration, o.maxTokens);
    var gates := CanonicalGates(summary, policy);
    abort := StageAbort(summary, policy.abortErrorPercent);
    stage := Stage(Complete, concurrency, planned, ElapsedNanos(batch.duration), ElapsedMillis(batch.duration), summary, gates, attempts);
  }

  ghost predicate NoAbort(warmups: seq<Warmup>, stages: seq<Stage>, n: nat, abortErrorPercent: real) {
    && n <= |warmups| && n <= |stages|
    && (forall i :: 0 <= i < n ==> WarmupAbort(warmups[i], abortErrorPercent).None?)
    && (forall i :: 0 <= i < n ==> StageAbort(stages[i].summary, abortErrorPercent).None?)
  }

  lemma {:induction false} WarmupsGrow(o: Options, policy: Policy, env: Environment, warmups: seq<Warmup>, row: Warmup)
    requires WarmupsFrom(o, policy, env, warmups) && |warmups| < |o.concurrencyStages| && env.warmup(|warmups|).Some?
    requires row == WarmupRow(env.warmup(|warmups|).value, o.concurrencyStages[|warmups|], o.warmupRequestsPerWorker, policy)
    ensures WarmupsFrom(o, policy, env, warmups + [row])
  {
  }

  lemma {:induction false} StagesGrow(o: Options, policy: Policy, env: Environment, stages: seq<Stage>, row: Stage)
    requires StagesFrom(o, policy, env, stages) && |stages| < |o.concurrencyStages| && env.stage(|stages|).Some?
    requires row == StageRow(env.stage(|stages|).value, o.concurrencyStages[|stages|], o.requestsPerWorker, o.maxTokens, policy)
    ensures StagesFrom(o, policy, env, stages + [row])
  {
  }

  lemma {:induction false} NoAbortGrows(warmups: seq<Warmup>, stages: seq<Stage>, warmup: Warmup, stage: Stage, abortErrorPercent: real)
    requires |warmups| == |stages| && NoAbort(warmups, stages, |stages|, abortErrorPercent)
    requires WarmupAbort(warmup, abortErrorPercent).None? && StageAbort(stage.summary, abortErrorPercent).None?
    ensures NoAbort(warmups + [warmup], stages + [stage], |stages| + 1, abortErrorPercent)
  {
  }

  lemma {:induction false} EndsInWarmup(n: nat, warmups: seq<Warmup>, stages: seq<Stage>, warmup: Warmup, abortErrorPercent: real)
    requires |warmups| == |stages| < n && NoAbort(warmups, stages, |stages|, abortErrorPercent)
    requires WarmupAbort(warmup, abortErrorPercent).Some?
    ensures IsLadder(n, Outcome(warmups + [warmup], stages, WarmupAbort(warmup, abortErrorPercent)), abortErrorPercent)
  {
  }

  lemma {:induction false} EndsInStage(n: nat, warmups: seq<Warmup>, stages: seq<Stage>, warmup: Warmup, stage: Stage, abortErrorPercent: real)
    requires |warmups| == |stages| < n && NoAbort(warmups, stages, |stages|, abortErrorPercent)
    requires WarmupAbort(warmup, abortErrorPercent).None?
    requires StageAbort(stage.summary, abortErrorPercent).Some? || |stages| + 1 == n
    ensures IsLadder(n, Outcome(warmups + [warmup], stages + [stage], StageAbort(stage.summary, abortErrorPercent)), abortErrorPercent)
  {
  }

  lemma {:induction false} Completes(n: nat, warmups: seq<Warmup>, stages: seq<Stage>, abortErrorPercent: real)
    requires |warmups| == |stages| == n > 0 && NoAbort(warmups, stages, n, abortErrorPercent)
    ensures IsLadder(n, Outcome(warmups, stages, None), abortErrorPercent)
  {
  }

  /** The loop over the planned concurrencies: its outcome is a ladder whose rows are those of the
      batches; it has none only when the executor failed. */
  method ExecuteSchedule(o: Options, policy: Policy, env: Environment) returns (out: Option<Outcome>)
    requires o.concurrencyStages != []
    ensures out.Some? ==> IsLadder(|o.concurrencyStages|, out.value, policy.abortErrorPercent)
    ensures out.Some? ==> RowsFrom(o, policy, env, out.value)
    ensures out.None? ==> exists i: nat :: i < |o.concurrencyStages| && (env.warmup(i).None? || env.stage(i).None?)
  {
    var warmups: seq<Warmup>, stages: seq<Stage> := [], [];
    ghost var n := |o.concurrencyStages|;
    for position: nat := 0 to |o.concurrencyStages|
      invariant |warmups| == |stages| == position
      invariant WarmupsFrom(o, policy, env, warmups) && StagesFrom(o, policy, env, stages)
      invariant NoAbort(warmups, stages, position, policy.abortErrorPercent)
    {
      var concurrency := o.concurrencyStages[position];
      var warmupBatch := env.warmup(position);
      if warmupBatch.None? { return None; }
      var warmup, warmupAbort := ExecuteWarmup(warmupBatch.value, o, policy, concurrency);
      WarmupsGrow(o, policy, env, warmups, warmup);
      if warmupAbort.Some? {
        EndsInWarmup(n, warmups, stages, warmup, policy.abortErrorPercent);
        return Some(Outcome(warmups + [warmup], stages, warmupAbort));
      }
      var stageBatch := env.stage(position);
      if stageBatch.None? { return None; }
      var stage, stageAbort := ExecuteStage(stageBatch.value, o, policy, concurrency);
      StagesGrow(o, policy, env, stages, stage);
      if stageAbort.Some? {
        EndsInStage(n, warmups, stages, warmup, stage, policy.abortErrorPercent);
        return Some(Outcome(warmups + [warmup], stages + [stage], stageAbort));
      }
      NoAbortGrows(warmups, stages, warmup, stage, policy.abortErrorPercent);
      warmups, stages := warmups + [warmup], stages + [stage];
    }
    Completes(n, warmups, stages, policy.abortErrorPercent);
    return Some(Outcome(warmups, stages, None));
  }

  lemma {:induction false} LadderReach(n: nat, a: Outcome, b: Outcome, abortErrorPercent: real)
    requires IsLadder(n, a, abortErrorPercent) && IsLadder(n, b, abortErrorPercent)
    requires Agree(a.warmups, b.warmups) && Agree(a.stages, b.stages)
    ensures |a.warmups| <= |b.warmups| && |a.stages| <= |b.stages|
  {
    var k := |b.warmups| - 1;
    if |b.stages| == k {
      assert k < |a.warmups| ==> a.warmups[k] == b.warmups[k];
    } else {
      assert k < |a.stages| ==> a.stages[k] == b.stages[k];
    }
  }

  ghost predicate Agree<T(!new)>(a: seq<T>, b: seq<T>) { forall i :: 0 <= i < |a| && i < |b| ==> a[i] == b[i] }

  lemma {:induction false} AgreeingLaddersAreEqual(n: nat, a: Outcome, b: Outcome, abortErrorPercent: real)
    requires IsLadder(n, a, abortErrorPercent) && IsLadder(n, b, abortErrorPercent)
    requires Agree(a.warmups, b.warmups) && Agree(a.stages, b.stages)
    ensures a == b
  {
    LadderReach(n, a, b, abortErrorPercent);
    LadderReach(n, b, a, abortErrorPercent);
    assert a.warmups == b.warmups && a.stages == b.stages;
  }

  lemma {:induction false} WarmupsAgree(o: Options, policy: Policy, env: Environment, a: seq<Warmup>, b: seq<Warmup>)
    requires WarmupsFrom(o, policy, env, a) && WarmupsFrom(o, policy, env, b)
    ensures Agree(a, b)
  {
  }

  lemma {:induction false} StagesAgree(o: Options, policy: Policy, env: Environment, a: seq<Stage>, b: seq<Stage>)
    requires StagesFrom(o, policy, env, a) && StagesFrom(o, policy, env, b)
    ensures Agree(a, b)
  {
  }

  /** The run is determined by the batches: which phases are reached, every row and the reason for
      stopping. */
  lemma {:induction false} LadderIsUnique(o: Options, policy: Policy, env: Environment, a: Outcome, b: Outcome)
    requires IsLadder(|o.concurrencyStages|, a, policy.abortErrorPercent) && RowsFrom(o, policy, env, a)
    requires IsLadder(|o.concurrencyStages|, b, policy.abortErrorPercent) && RowsFrom(o, policy, env, b)
    ensures a == b
  {
    WarmupsAgree(o, policy, env, a.warmups, b.warmups);
    StagesAgree(o, policy, env, a.stages, b.stages);
    AgreeingLaddersAreEqual(|o.concurrencyStages|, a, b, policy.abortErrorPercent);
  }
}
