/** What admission promises about the whole run: how many attempts it makes and how long its phases
    can take. */
module RunBudget {
  import opened Common
  import opened Attempts
  import opened Admission
  import opened StageSummary
  import opened Ladder
  import S = SavedReport
  import P = ProducerAccepted
  import Gate = StartGate
  import GateTiming
  import Workload

  function WarmupAttempts(warmups: seq<Warmup>): nat {
    if warmups == [] then 0 else WarmupAttempts(warmups[..|warmups| - 1]) + warmups[|warmups| - 1].attempted
  }

  function StageAttempts(stages: seq<Stage>): nat {
    if stages == [] then 0 else StageAttempts(stages[..|stages| - 1]) + |stages[|stages| - 1].attempts|
  }

  /** Every request of the run, warmup and measured. */
  function AttemptsMade(out: Outcome): nat { WarmupAttempts(out.warmups) + StageAttempts(out.stages) }

  ghost predicate WarmupsSized(o: Options, warmups: seq<Warmup>) {
    |warmups| <= |o.concurrencyStages|
    && forall i :: 0 <= i < |warmups| ==> warmups[i].attempted == o.concurrencyStages[i] * o.warmupRequestsPerWorker
  }

  ghost predicate StagesSized(o: Options, stages: seq<Stage>) {
    |stages| <= |o.concurrencyStages|
    && forall i :: 0 <= i < |stages| ==> |stages[i].attempts| == o.concurrencyStages[i] * o.requestsPerWorker
  }

  lemma {:induction false} TotalOfPrefix(stages: seq<nat>, n: nat)
    requires n < |stages|
    ensures Total(stages[..n + 1]) == Total(stages[..n]) + stages[n]
  {
    assert stages[..n + 1][..n] == stages[..n];
  }

  lemma {:induction false} TotalGrows(stages: seq<nat>, n: nat)
    requires n <= |stages|
    ensures Total(stages[..n]) <= Total(stages)
    decreases |stages| - n
  {
    if n < |stages| {
      TotalOfPrefix(stages, n);
      TotalGrows(stages, n + 1);
    } else {
      assert stages[..n] == stages;
    }
  }

  lemma {:induction false} WarmupAttemptsAre(o: Options, warmups: seq<Warmup>)
    requires WarmupsSized(o, warmups)
    ensures WarmupAttempts(warmups) == Total(o.concurrencyStages[..|warmups|]) * o.warmupRequestsPerWorker
  {
    if warmups != [] {
      var n := |warmups| - 1;
      WarmupAttemptsAre(o, warmups[..n]);
      TotalOfPrefix(o.concurrencyStages, n);
      Distribute(Total(o.concurrencyStages[..n]), o.concurrencyStages[n], o.warmupRequestsPerWorker);
    }
  }

  lemma {:induction false} StageAttemptsAre(o: Options, stages: seq<Stage>)
    requires StagesSized(o, stages)
    ensures StageAttempts(stages) == Total(o.concurrencyStages[..|stages|]) * o.requestsPerWorker
  {
    if stages != [] {
      var n := |stages| - 1;
      StageAttemptsAre(o, stages[..n]);
      TotalOfPrefix(o.concurrencyStages, n);
      Distribute(Total(o.concurrencyStages[..n]), o.concurrencyStages[n], o.requestsPerWorker);
    }
  }

  lemma {:induction false} Distribute(a: nat, b: nat, c: nat)
    ensures (a + b) * c == a * c + b * c
  {
  }

  lemma {:induction false} RunIsSized(o: Options, env: Environment, policy: Policy, out: Outcome)
    requires Validate(o).Some? && RowsFrom(o, policy, env, out) && P.ExecutorEnvironment(o, env)
    ensures WarmupsSized(o, out.warmups) && StagesSized(o, out.stages)
  {
    forall i: nat | i < |out.warmups| ensures out.warmups[i].attempted == o.concurrencyStages[i] * o.warmupRequestsPerWorker {
      PhaseCountsFit(o, i);
      assert P.WarmupFromExecutor(o, env, i);
    }
    forall i: nat | i < |out.stages| ensures |out.stages[i].attempts| == o.concurrencyStages[i] * o.requestsPerWorker {
      assert P.StageFromExecutor(o, env, i);
    }
  }

  lemma {:induction false} AttemptsOfPrefixes(o: Options, w: nat, s: nat)
    requires s <= w <= |o.concurrencyStages|
    ensures Total(o.concurrencyStages[..w]) * o.warmupRequestsPerWorker + Total(o.concurrencyStages[..s]) * o.requestsPerWorker
         <= PlannedAttempts(o)
    ensures s == |o.concurrencyStages| ==>
      Total(o.concurrencyStages[..w]) * o.warmupRequestsPerWorker + Total(o.concurrencyStages[..s]) * o.requestsPerWorker
      == PlannedAttempts(o)
  {
    var t := Total(o.concurrencyStages);
    TotalGrows(o.concurrencyStages, w);
    TotalGrows(o.concurrencyStages, s);
    ProductBound(Total(o.concurrencyStages[..w]), o.warmupRequestsPerWorker, t, o.warmupRequestsPerWorker);
    ProductBound(Total(o.concurrencyStages[..s]), o.requestsPerWorker, t, o.requestsPerWorker);
    assert PlannedAttempts(o) == t * o.warmupRequestsPerWorker + t * o.requestsPerWorker by {
      Distribute(o.warmupRequestsPerWorker, o.requestsPerWorker, t);
    }
    if s == |o.concurrencyStages| { assert o.concurrencyStages[..s] == o.concurrencyStages; }
  }

  /** A run that completes its plan makes exactly the planned attempts, at most ten thousand; one that
      stops early makes no more. */
  lemma {:induction false} AttemptsAreAsPlanned(o: Options, env: Environment, policy: Policy, out: Outcome)
    requires Validate(o).Some? && P.ExecutorEnvironment(o, env) && RowsFrom(o, policy, env, out)
    requires IsLadder(|o.concurrencyStages|, out, policy.abortErrorPercent)
    ensures AttemptsMade(out) <= Validate(o).value <= MAX_ATTEMPTS
    ensures |out.stages| == |o.concurrencyStages| ==> AttemptsMade(out) == Validate(o).value
  {
    AdmittedIff(o);
    RunIsSized(o, env, policy, out);
    WarmupAttemptsAre(o, out.warmups);
    StageAttemptsAre(o, out.stages);
    AttemptsOfPrefixes(o, |out.warmups|, |out.stages|);
  }

  // ---- Time ----

  /** So many requests of one worker, each within the timeout, and the gaps between them. */
  function PhaseBound(timeout: nat, gap: nat, requests: nat): nat { requests * (timeout + gap) + gap }

  /** A run of the batch protocol that ends with the batch, in which every request takes at most the
      timeout and a worker loses at most a gap before each request and after its last. */
  ghost predicate RanPromptly(
    batch: Batch, concurrency: nat, perWorker: nat, timeout: nat, gap: nat, outcome: nat -> Option<Attempt>,
    states: seq<Gate.State<Attempt>>, steps: seq<Gate.Step>)
    requires 0 < concurrency <= U64_MAX && concurrency * perWorker <= U64_MAX
  {
    && Gate.IsRun(P.PhaseConfig(concurrency, perWorker, outcome), states, steps)
    && states[|steps|].coordinator == Gate.Done(Result<Batch, Workload.Error>.Ok(batch))
    && GateTiming.AllPrompt(steps, gap) && forall j :: j in states[|steps|].spent ==> states[|steps|].spent[j] <= timeout
  }

  ghost predicate Promptly(batch: Batch, concurrency: nat, perWorker: nat, timeout: nat, gap: nat) {
    0 < concurrency <= U64_MAX && concurrency * perWorker <= U64_MAX
    && exists outcome: nat -> Option<Attempt>, states: seq<Gate.State<Attempt>>, steps: seq<Gate.Step> ::
         RanPromptly(batch, concurrency, perWorker, timeout, gap, outcome, states, steps)
  }

  /** Such a phase lasts at most the requests of one worker, each with the timeout and a gap, and one
      more gap. */
  lemma {:induction false} PhaseIsTimely(batch: Batch, concurrency: nat, perWorker: nat, timeout: nat, gap: nat)
    requires Promptly(batch, concurrency, perWorker, timeout, gap)
    ensures batch.duration <= PhaseBound(timeout, gap, perWorker)
  {
    var outcome: nat -> Option<Attempt>, states: seq<Gate.State<Attempt>>, steps: seq<Gate.Step> :|
      RanPromptly(batch, concurrency, perWorker, timeout, gap, outcome, states, steps);
    var c := P.PhaseConfig(concurrency, perWorker, outcome);
    Workload.ExecutorRangesArePartition(concurrency * perWorker, concurrency);
    forall slot | 0 <= slot < c.total ensures c.bounds[slot + 1] - c.bounds[slot] <= perWorker {
      Workload.ExactMultipleRanges(concurrency, perWorker, slot);
      assert Workload.WorkerRange(c.count, concurrency, slot) == (c.bounds[slot], c.bounds[slot + 1]);
      Distribute(slot, 1, perWorker);
    }
    GateTiming.BatchWithin(c, states, steps, |steps|, perWorker, timeout, gap);
  }

  /** Every batch of the environment is what such a run ended with. */
  ghost predicate PromptEnvironment(o: Options, env: Environment, gap: nat) {
    forall i: nat :: i < |o.concurrencyStages| ==>
      && (env.warmup(i).Some? ==> Promptly(env.warmup(i).value, o.concurrencyStages[i], o.warmupRequestsPerWorker, o.timeout, gap))
      && (env.stage(i).Some? ==> Promptly(env.stage(i).value, o.concurrencyStages[i], o.requestsPerWorker, o.timeout, gap))
  }

  lemma {:induction false} RowsAreTimely(o: Options, env: Environment, gap: nat, policy: Policy, out: Outcome)
    requires RowsFrom(o, policy, env, out) && PromptEnvironment(o, env, gap)
    ensures TimelyFor(out, PhaseBound(o.timeout, gap, o.warmupRequestsPerWorker), PhaseBound(o.timeout, gap, o.requestsPerWorker))
  {
    forall i: nat | i < |out.warmups| ensures out.warmups[i].durationNs <= PhaseBound(o.timeout, gap, o.warmupRequestsPerWorker) {
      PhaseIsTimely(env.warmup(i).value, o.concurrencyStages[i], o.warmupRequestsPerWorker, o.timeout, gap);
    }
    forall i: nat | i < |out.stages| ensures out.stages[i].durationNs <= PhaseBound(o.timeout, gap, o.requestsPerWorker) {
      PhaseIsTimely(env.stage(i).value, o.concurrencyStages[i], o.requestsPerWorker, o.timeout, gap);
    }
  }

  ghost predicate TimelyFor(out: Outcome, warmup: nat, stage: nat) {
    && (forall i :: 0 <= i < |out.warmups| ==> out.warmups[i].durationNs <= warmup)
    && (forall i :: 0 <= i < |out.stages| ==> out.stages[i].durationNs <= stage)
  }

  lemma {:induction false} WarmupTimeBounded(warmups: seq<Warmup>, most: nat)
    requires forall i :: 0 <= i < |warmups| ==> warmups[i].durationNs <= most
    ensures S.WarmupTime(warmups) <= |warmups| * most
  {
    if warmups != [] {
      WarmupTimeBounded(warmups[..|warmups| - 1], most);
      Distribute(|warmups| - 1, 1, most);
    }
  }

  lemma {:induction false} StageTimeBounded(stages: seq<Stage>, most: nat)
    requires forall i :: 0 <= i < |stages| ==> stages[i].durationNs <= most
    ensures S.StageTime(stages) <= |stages| * most
  {
    if stages != [] {
      StageTimeBounded(stages[..|stages| - 1], most);
      Distribute(|stages| - 1, 1, most);
    }
  }

  lemma {:induction false} Times(n: nat, a: nat, b: nat)
    ensures n * a + n * b == n * (a + b)
  {
  }

  lemma {:induction false} Reorder(n: nat, a: nat, b: nat)
    ensures n * (a * b) == b * (n * a)
  {
  }

  lemma {:induction false} WavesOfTimeout(n: nat, w: nat, r: nat, timeout: nat, gap: nat)
    ensures n * PhaseBound(timeout, gap, w) + n * PhaseBound(timeout, gap, r) == timeout * (n * (w + r)) + n * ((w + r + 2) * gap)
  {
    Times(n, PhaseBound(timeout, gap, w), PhaseBound(timeout, gap, r));
    Distribute(w, r, timeout + gap);
    Times(w + r, timeout, gap);
    Distribute(w + r, 2, gap);
    assert PhaseBound(timeout, gap, w) + PhaseBound(timeout, gap, r) == (w + r) * timeout + (w + r + 2) * gap;
    Times(n, (w + r) * timeout, (w + r + 2) * gap);
    Reorder(n, w + r, timeout);
  }

  /** What an admitted run adds to half an hour: for every stage its requests per worker, and the ends
      of its two phases, each one gap. */
  function Gaps(o: Options, gap: nat): nat { |o.concurrencyStages| * ((PerConcurrency(o) + 2) * gap) }

  lemma {:induction false} WavesBudget(o: Options, gap: nat)
    requires Validate(o).Some?
    ensures |o.concurrencyStages| * PhaseBound(o.timeout, gap, o.warmupRequestsPerWorker)
          + |o.concurrencyStages| * PhaseBound(o.timeout, gap, o.requestsPerWorker)
         <= MAX_PLANNED_DURATION + Gaps(o, gap)
  {
    AdmittedIff(o);
    WavesOfTimeout(|o.concurrencyStages|, o.warmupRequestsPerWorker, o.requestsPerWorker, o.timeout, gap);
  }

  lemma {:induction false} TimelyWithin(o: Options, env: Environment, gap: nat, policy: Policy, out: Outcome, a: nat, b: nat, budget: nat)
    requires PromptEnvironment(o, env, gap) && RowsFrom(o, policy, env, out)
    requires IsLadder(|o.concurrencyStages|, out, policy.abortErrorPercent)
    requires a == PhaseBound(o.timeout, gap, o.warmupRequestsPerWorker) && b == PhaseBound(o.timeout, gap, o.requestsPerWorker)
    requires |o.concurrencyStages| * a + |o.concurrencyStages| * b <= budget
    ensures S.PhaseTime(out) <= budget
  {
    RowsAreTimely(o, env, gap, policy, out);
    TimeWithin(out, |o.concurrencyStages|, a, b, budget);
  }

  lemma {:induction false} NoGaps(o: Options)
    ensures Gaps(o, 0) == 0
  {
  }

  /** The phases of an admitted run of the protocol, each request within the timeout, take at most
      thirty minutes together and the gaps; without gaps at most thirty minutes. */
  lemma {:induction false} PhasesWithinHalfAnHour(o: Options, env: Environment, gap: nat, policy: Policy, out: Outcome)
    requires Validate(o).Some? && PromptEnvironment(o, env, gap) && RowsFrom(o, policy, env, out)
    requires IsLadder(|o.concurrencyStages|, out, policy.abortErrorPercent)
    ensures S.PhaseTime(out) <= MAX_PLANNED_DURATION + Gaps(o, gap)
    ensures gap == 0 ==> S.PhaseTime(out) <= MAX_PLANNED_DURATION
  {
    WavesBudget(o, gap);
    NoGaps(o);
    TimelyWithin(o, env, gap, policy, out, PhaseBound(o.timeout, gap, o.warmupRequestsPerWorker),
                 PhaseBound(o.timeout, gap, o.requestsPerWorker), MAX_PLANNED_DURATION + Gaps(o, gap));
  }

  lemma {:induction false} TimeWithin(out: Outcome, n: nat, a: nat, b: nat, budget: nat)
    requires TimelyFor(out, a, b)
    requires |out.warmups| <= n && |out.stages| <= n && n * a + n * b <= budget
    ensures S.PhaseTime(out) <= budget
  {
    WarmupTimeBounded(out.warmups, a);
    StageTimeBounded(out.stages, b);
    SumBounds(S.WarmupTime(out.warmups), S.StageTime(out.stages), |out.warmups|, |out.stages|, n, a, b);
  }

  lemma {:induction false} SumBounds(x: nat, y: nat, w: nat, s: nat, n: nat, a: nat, b: nat)
    requires x <= w * a && y <= s * b && w <= n && s <= n
    ensures x + y <= n * a + n * b
  {
    ProductBound(w, a, n, a);
    ProductBound(s, b, n, b);
  }
}
