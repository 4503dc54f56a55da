/** The benchmark run and the validator of its report describe the same runs. */
module ProducerAccepted {
  import opened Common
  import opened Attempts
  import opened Admission
  import opened StageSummary
  import opened Ladder
  import opened Assessment
  import opened SavedReport
  import opened Target
  import Workload
  import Gate = StartGate
  import GateReplay

  // ---- What the executor hands to a phase ----

  /** Summed response times of the exchanges `from..till`. */
  function FinishSum(x: nat -> Exchange, from: nat, till: nat): (total: nat)
    decreases till
  {
    if till <= from then 0 else FinishSum(x, from, till - 1) + x(till - 1).finish
  }

  /** The records of exchanges `0..concurrency * perWorker`, in order, and a duration in which every
      worker had the time for its share. */
  ghost predicate ExecutorBatch(batch: Batch, x: nat -> Exchange, concurrency: nat, perWorker: nat, o: Options) {
    && |batch.results| == concurrency * perWorker && batch.duration <= U64_MAX
    && (forall i: nat :: i < |batch.results| ==> RecordOf(batch.results[i], i, x, o))
    && (forall k: nat :: k < concurrency ==> ShareFits(batch, x, k, perWorker))
  }

  ghost predicate RecordOf(a: Attempt, i: nat, x: nat -> Exchange, o: Options) {
    Possible(x(i), o.stream, o.expectation.Some?) && a == Record(i, x(i), o.maxTokens)
  }

  ghost predicate ShareFits(batch: Batch, x: nat -> Exchange, k: nat, perWorker: nat) {
    FinishSum(x, k * perWorker, (k + 1) * perWorker) <= batch.duration
  }

  ghost predicate FromExecutor(batch: Batch, concurrency: nat, perWorker: nat, o: Options) {
    exists x: nat -> Exchange :: ExecutorBatch(batch, x, concurrency, perWorker, o)
  }

  lemma {:induction false} FinishWithinSpent(x: nat -> Exchange, spent: map<nat, nat>, from: nat, till: nat)
    requires forall i: nat :: from <= i < till ==> i in spent && x(i).finish <= spent[i]
    ensures FinishSum(x, from, till) <= Gate.TimeSpent(spent, from, till)
    decreases till
  {
    if from < till { FinishWithinSpent(x, spent, from, till - 1); }
  }

  /** One worker per unit of concurrency, each with the range the executor hands out. */
  ghost function PhaseConfig(concurrency: nat, perWorker: nat, outcome: nat -> Option<Attempt>): (c: Gate.Config<Attempt>)
    requires 0 < concurrency <= U64_MAX && concurrency * perWorker <= U64_MAX
    ensures Gate.ValidConfig(c)
  {
    Workload.ExecutorRangesArePartition(concurrency * perWorker, concurrency);
    Gate.Config(concurrency * perWorker, concurrency, Workload.ExecutorBounds(concurrency * perWorker, concurrency), outcome)
  }

  /** Every invocation made one exchange, recorded it, and took at least as long. */
  ghost predicate MadeRequests(count: nat, x: nat -> Exchange, o: Options, outcome: nat -> Option<Attempt>, spent: map<nat, nat>) {
    forall j: nat :: j < count ==> outcome(j).Some? && RecordOf(outcome(j).value, j, x, o) && j in spent && x(j).finish <= spent[j]
  }

  /** A finished run of the start-gate protocol over `concurrency * perWorker` requests is such a
      batch: results in order, and the summed response times of each worker within the duration,
      because a worker makes its requests one after another. */
  lemma {:induction false} ProtocolRunIsExecutorBatch(
    concurrency: nat, perWorker: nat, x: nat -> Exchange, o: Options, outcome: nat -> Option<Attempt>,
    states: seq<Gate.State<Attempt>>, steps: seq<Gate.Step>, i: nat)
    requires 0 < concurrency <= U64_MAX && concurrency * perWorker <= U64_MAX
    requires Gate.IsRun(PhaseConfig(concurrency, perWorker, outcome), states, steps) && i < |states|
    requires states[i].coordinator.Done? && states[i].coordinator.batch.Ok?
    requires states[i].coordinator.batch.value.duration <= U64_MAX
    requires MadeRequests(concurrency * perWorker, x, o, outcome, states[i].spent)
    ensures ExecutorBatch(states[i].coordinator.batch.value, x, concurrency, perWorker, o)
  {
    var count := concurrency * perWorker;
    var c := PhaseConfig(concurrency, perWorker, outcome);
    Workload.ExecutorRangesArePartition(count, concurrency);
    Gate.BatchIndependentOfSchedule(c, states, steps, i);
    var batch := states[i].coordinator.batch.value;
    forall j: nat | j < count ensures RecordOf(batch.results[j], j, x, o) {
      assert outcome(j) == Some(batch.results[j]);
    }
    forall k: nat | k < concurrency ensures ShareFits(batch, x, k, perWorker) {
      Workload.ExactMultipleRanges(concurrency, perWorker, k);
      assert Workload.WorkerRange(count, concurrency, k) == (c.bounds[k], c.bounds[k + 1]);
      Gate.WorkerTimeWithinDuration(c, states, steps, i, k);
      assert c.bounds[k + 1] <= count;
      FinishWithinSpent(x, states[i].spent, c.bounds[k], c.bounds[k + 1]);
    }
  }

  lemma {:induction false} FinishSumIsTook(x: nat -> Exchange, took: nat -> nat, from: nat, till: nat)
    requires forall i: nat :: took(i) == x(i).finish
    ensures FinishSum(x, from, till) == GateReplay.Took(took, from, till)
    decreases till
  {
    if from < till { FinishSumIsTook(x, took, from, till - 1); }
  }

  ghost function ReturnedBy(batch: Batch): nat -> Option<Attempt> {
    (i: nat) => if i < |batch.results| then Some(batch.results[i]) else None
  }

  lemma {:induction false} SharesAreRoom(batch: Batch, x: nat -> Exchange, concurrency: nat, perWorker: nat, o: Options, t: GateReplay.Timing)
    requires 0 < concurrency <= U64_MAX && concurrency * perWorker <= U64_MAX && ExecutorBatch(batch, x, concurrency, perWorker, o)
    requires t.duration == batch.duration && forall i: nat :: t.took(i) == x(i).finish
    ensures GateReplay.Roomy(PhaseConfig(concurrency, perWorker, ReturnedBy(batch)), t)
  {
    var c := PhaseConfig(concurrency, perWorker, ReturnedBy(batch));
    Workload.ExecutorRangesArePartition(c.count, concurrency);
    forall slot: nat | slot < c.total ensures GateReplay.Took(t.took, c.bounds[slot], c.bounds[slot + 1]) <= t.duration {
      Workload.ExactMultipleRanges(concurrency, perWorker, slot);
      assert Workload.WorkerRange(c.count, concurrency, slot) == (c.bounds[slot], c.bounds[slot + 1]);
      assert ShareFits(batch, x, slot, perWorker);
      FinishSumIsTook(x, t.took, c.bounds[slot], c.bounds[slot + 1]);
    }
  }

  /** A run of the protocol over these requests that ends with this batch. */
  ghost predicate RunsTo(
    batch: Batch, x: nat -> Exchange, concurrency: nat, perWorker: nat, o: Options, outcome: nat -> Option<Attempt>,
    states: seq<Gate.State<Attempt>>, steps: seq<Gate.Step>)
    requires 0 < concurrency <= U64_MAX && concurrency * perWorker <= U64_MAX
  {
    && Gate.IsRun(PhaseConfig(concurrency, perWorker, outcome), states, steps)
    && states[|steps|].coordinator == Gate.Done(Result<Batch, Workload.Error>.Ok(batch))
    && MadeRequests(concurrency * perWorker, x, o, outcome, states[|steps|].spent)
  }

  lemma {:induction false} ExecutorBatchHasRun(batch: Batch, x: nat -> Exchange, concurrency: nat, perWorker: nat, o: Options)
    returns (states: seq<Gate.State<Attempt>>, steps: seq<Gate.Step>)
    requires 0 < concurrency <= U64_MAX && concurrency * perWorker <= U64_MAX && ExecutorBatch(batch, x, concurrency, perWorker, o)
    ensures RunsTo(batch, x, concurrency, perWorker, o, ReturnedBy(batch), states, steps)
  {
    var count := concurrency * perWorker;
    var t := GateReplay.Timing((i: nat) => x(i).finish, batch.duration);
    SharesAreRoom(batch, x, concurrency, perWorker, o, t);
    states, steps := GateReplay.BatchRunExists(PhaseConfig(concurrency, perWorker, ReturnedBy(batch)), t);
    var ended := states[|steps|].coordinator.batch.value;
    assert ended.results == batch.results by {
      forall j: nat | j < count ensures ended.results[j] == batch.results[j] {}
    }
    assert forall j: nat :: j < count ==> RecordOf(batch.results[j], j, x, o);
  }

  /** The batches of the executor are exactly the outcomes of the finished runs of its protocol. */
  lemma {:induction false} ExecutorBatchIffRun(batch: Batch, x: nat -> Exchange, concurrency: nat, perWorker: nat, o: Options)
    requires 0 < concurrency <= U64_MAX && concurrency * perWorker <= U64_MAX && batch.duration <= U64_MAX
    ensures ExecutorBatch(batch, x, concurrency, perWorker, o)
       <==> exists outcome: nat -> Option<Attempt>, states: seq<Gate.State<Attempt>>, steps: seq<Gate.Step> ::
              RunsTo(batch, x, concurrency, perWorker, o, outcome, states, steps)
  {
    if ExecutorBatch(batch, x, concurrency, perWorker, o) {
      var states, steps := ExecutorBatchHasRun(batch, x, concurrency, perWorker, o);
    }
    if outcome: nat -> Option<Attempt>, states: seq<Gate.State<Attempt>>, steps: seq<Gate.Step> :|
         RunsTo(batch, x, concurrency, perWorker, o, outcome, states, steps) {
      ProtocolRunIsExecutorBatch(concurrency, perWorker, x, o, outcome, states, steps, |steps|);
    }
  }

  // ---- Rows ----

  lemma {:induction false} RecordsConsistent(batch: Batch, x: nat -> Exchange, concurrency: nat, perWorker: nat, o: Options)
    requires ExecutorBatch(batch, x, concurrency, perWorker, o)
    ensures Consistent(batch.results)
  {
    forall i: nat | i < |batch.results| ensures batch.results[i].success <==> batch.results[i].failureStage.None? {
      assert RecordOf(batch.results[i], i, x, o);
    }
  }

  lemma {:induction false} DurationAccepted(duration: nat)
    requires duration <= U64_MAX
    ensures ElapsedNanos(duration) == duration
    ensures ValidDuration(ElapsedNanos(duration), ElapsedMillis(duration)) <==> duration >= 1
  {
  }

  /** A warmup row is accepted iff the phase lasted at least a nanosecond. */
  lemma {:induction false} WarmupRowAcceptedIff(batch: Batch, x: nat -> Exchange, concurrency: nat, perWorker: nat, o: Options, policy: Policy)
    requires ExecutorBatch(batch, x, concurrency, perWorker, o) && concurrency * perWorker <= U32_MAX
    ensures ValidWarmup(WarmupRow(batch, concurrency, perWorker, policy), concurrency, perWorker) <==> batch.duration >= 1
  {
    RecordsConsistent(batch, x, concurrency, perWorker, o);
    CountsAddUp(batch.results);
    DurationAccepted(batch.duration);
  }

  lemma {:induction false} RecordedTime(a: Attempt, i: nat, x: nat -> Exchange, o: Options)
    requires RecordOf(a, i, x, o)
    ensures a.e2eMs == Some(Milliseconds(x(i).finish))
  {
  }

  lemma {:induction false} ShareIsTime(attempts: seq<Attempt>, x: nat -> Exchange, o: Options, from: nat, till: nat, limit: nat)
    requires from <= till <= |attempts| && forall i: nat :: i < |attempts| ==> RecordOf(attempts[i], i, x, o)
    requires FinishSum(x, from, till) <= limit <= U64_MAX
    ensures TimeOf(attempts, from, till) == Some(FinishSum(x, from, till))
    decreases till
  {
    if from < till {
      ShareIsTime(attempts, x, o, from, till - 1, limit);
      RecordedTime(attempts[till - 1], till - 1, x, o);
      NanosecondsExact(x(till - 1).finish);
    }
  }

  lemma {:induction false} FullShare(concurrency: nat, perWorker: nat, k: nat)
    requires (k + 1) * perWorker <= concurrency * perWorker && perWorker > 0
    ensures k < concurrency
  {
    assert k >= concurrency ==> (k + 1) * perWorker >= (concurrency + 1) * perWorker;
  }

  /** The chunks the validator sums are the shares of the workers, and they fit the stage. */
  lemma {:induction false} BatchWorkersFit(batch: Batch, x: nat -> Exchange, concurrency: nat, perWorker: nat, o: Options)
    requires ExecutorBatch(batch, x, concurrency, perWorker, o) && perWorker > 0
    ensures WorkersFit(batch.results, perWorker, batch.duration)
  {
    forall k: nat ensures ChunkFits(batch.results, perWorker, batch.duration, k) {
      if k * perWorker <= (k + 1) * perWorker <= |batch.results| {
        FullShare(concurrency, perWorker, k);
        assert ShareFits(batch, x, k, perWorker);
        ShareIsTime(batch.results, x, o, k * perWorker, (k + 1) * perWorker, batch.duration);
      }
    }
  }

  /** A run of the batch protocol always passes the lower bound of the validator: the chunks are the
      ranges of the workers, and each worker made its requests one after another. */
  lemma {:induction false} ProtocolRunFitsWorkers(
    concurrency: nat, perWorker: nat, x: nat -> Exchange, o: Options, outcome: nat -> Option<Attempt>,
    states: seq<Gate.State<Attempt>>, steps: seq<Gate.Step>, i: nat)
    requires 0 < concurrency <= U64_MAX && 0 < perWorker && concurrency * perWorker <= U64_MAX
    requires Gate.IsRun(PhaseConfig(concurrency, perWorker, outcome), states, steps) && i < |states|
    requires states[i].coordinator.Done? && states[i].coordinator.batch.Ok?
    requires states[i].coordinator.batch.value.duration <= U64_MAX
    requires MadeRequests(concurrency * perWorker, x, o, outcome, states[i].spent)
    ensures var batch := states[i].coordinator.batch.value; WorkersFit(batch.results, perWorker, batch.duration)
  {
    ProtocolRunIsExecutorBatch(concurrency, perWorker, x, o, outcome, states, steps, i);
    BatchWorkersFit(states[i].coordinator.batch.value, x, concurrency, perWorker, o);
  }

  ghost predicate NoInterruptedBody(attempts: seq<Attempt>) { forall i :: 0 <= i < |attempts| ==> !InterruptedBody(attempts[i]) }

  lemma {:induction false} RecordsAcceptedIff(batch: Batch, x: nat -> Exchange, concurrency: nat, perWorker: nat, o: Options, r: Report)
    requires ExecutorBatch(batch, x, concurrency, perWorker, o)
    requires r.stream == o.stream && r.policy.expectationConfigured == o.expectation.Some? && r.plan.maxTokens == o.maxTokens
    ensures AttemptsOk(batch.results, r) <==> NoInterruptedBody(batch.results)
  {
    forall i: nat | i < |batch.results| ensures AttemptOk(batch.results, i, r) <==> !InterruptedBody(batch.results[i]) {
      assert RecordOf(batch.results[i], i, x, o);
      RecordAcceptedIff(i, x(i), o.stream, o.expectation.Some?, o.maxTokens);
    }
  }

  /** A stage row is accepted iff the stage lasted at least a nanosecond and none of its attempts is a
      transport failure that still carries a status. */
  lemma {:induction false} StageRowAcceptedIff(batch: Batch, x: nat -> Exchange, concurrency: nat, o: Options, r: Report)
    requires ExecutorBatch(batch, x, concurrency, o.requestsPerWorker, o)
    requires o.requestsPerWorker > 0 && concurrency * o.requestsPerWorker <= U32_MAX
    requires r.stream == o.stream && r.policy == PolicyOf(o)
    requires r.plan.maxTokens == o.maxTokens && r.plan.requestsPerWorker == o.requestsPerWorker
    ensures ValidStage(StageRow(batch, concurrency, o.requestsPerWorker, o.maxTokens, r.policy), concurrency, r)
       <==> batch.duration >= 1 && NoInterruptedBody(batch.results)
  {
    DurationAccepted(batch.duration);
    BatchWorkersFit(batch, x, concurrency, o.requestsPerWorker, o);
    RecordsAcceptedIff(batch, x, concurrency, o.requestsPerWorker, o, r);
  }

  // ---- The run ----

  /** The version, the identity and the fixed parts as a run with these options writes them. */
  predicate IsHeaderOf(o: Options, web: Web, r: Report) {
    && r.version == REPORT_VERSION && r.workloadId == o.workloadId && r.nonclaims == NONCLAIMS
    && Connect(o, web) == Some(r.url) && r.model == o.model
  }

  /** The report of a run over the phases of an environment, lasting `duration` in all. */
  ghost predicate IsReportOf(o: Options, web: Web, env: Environment, duration: nat, r: Report) {
    && Validate(o).Some? && IsHeaderOf(o, web, r)
    && IsEvidenceOf(o, env, duration, r)
  }

  ghost predicate IsEvidenceOf(o: Options, env: Environment, duration: nat, r: Report)
    requires Validate(o).Some?
  {
    && r.stream == o.stream && r.plan == PlanOf(o, Validate(o).value) && r.policy == PolicyOf(o)
    && r.durationNs == ElapsedNanos(duration) && r.durationMs == ElapsedMillis(duration)
    && IsLadder(|o.concurrencyStages|, r.out, r.policy.abortErrorPercent) && RowsFrom(o, r.policy, env, r.out)
    && r.status == (if r.out.abortReason.Some? then RunAborted else RunComplete)
    && r.assessment == AssessmentOf(r.out.stages, r.policy)
    && r.verification == Verify(o.verifyConcurrency, r.out.stages)
  }

  /** `run`: no report for options that are not admitted, when the client cannot be built or when the
      executor failed. */
  method Run(o: Options, web: Web, env: Environment, startedAt: int, duration: nat) returns (report: Option<Report>)
    ensures report.Some? ==> IsReportOf(o, web, env, duration, report.value) && report.value.startedAt == startedAt
    ensures report.None? ==>
      Validate(o).None? || Connect(o, web).None?
      || exists i: nat :: i < |o.concurrencyStages| && (env.warmup(i).None? || env.stage(i).None?)
  {
    var admission := Validate(o);
    if admission.None? { return None; }
    var url := Connect(o, web);
    if url.None? { return None; }
    var policy := PolicyOf(o);
    var out := ExecuteSchedule(o, policy, env);
    if out.None? { return None; }
    var status := if out.value.abortReason.Some? then RunAborted else RunComplete;
    var assessment := Assess(out.value.stages, policy);
    var verification := Verify(o.verifyConcurrency, out.value.stages);
    return Some(Report(REPORT_VERSION, startedAt, ElapsedNanos(duration), ElapsedMillis(duration), status, o.workloadId,
                       url.value, o.model, o.stream, PlanOf(o, admission.value), policy,
                       out.value, assessment, verification, NONCLAIMS));
  }

  /** Whatever an environment hands over came from the executor. */
  ghost predicate ExecutorEnvironment(o: Options, env: Environment) {
    forall i: nat :: i < |o.concurrencyStages| ==> WarmupFromExecutor(o, env, i) && StageFromExecutor(o, env, i)
  }

  ghost predicate WarmupFromExecutor(o: Options, env: Environment, i: nat)
    requires i < |o.concurrencyStages|
  {
    env.warmup(i).Some? ==> FromExecutor(env.warmup(i).value, o.concurrencyStages[i], o.warmupRequestsPerWorker, o)
  }

  ghost predicate StageFromExecutor(o: Options, env: Environment, i: nat)
    requires i < |o.concurrencyStages|
  {
    env.stage(i).Some? ==> FromExecutor(env.stage(i).value, o.concurrencyStages[i], o.requestsPerWorker, o)
  }

  /** What a maintainer has to know of a report to know that it will be accepted. */
  ghost predicate Lasted(r: Report) { WarmupsLasted(r) && StagesLasted(r) }

  ghost predicate WarmupsLasted(r: Report) { forall i :: 0 <= i < |r.out.warmups| ==> r.out.warmups[i].durationNs >= 1 }

  ghost predicate StagesLasted(r: Report) { forall i :: 0 <= i < |r.out.stages| ==> r.out.stages[i].durationNs >= 1 }

  ghost predicate NothingInterrupted(r: Report) {
    forall i :: 0 <= i < |r.out.stages| ==> NoInterruptedBody(r.out.stages[i].attempts)
  }

  /** The report carries the settings of the options. */
  ghost predicate Settings(o: Options, r: Report) {
    && r.stream == o.stream && r.policy == PolicyOf(o) && r.plan.concurrencyStages == o.concurrencyStages
    && r.plan.warmupRequestsPerWorker == o.warmupRequestsPerWorker && r.plan.requestsPerWorker == o.requestsPerWorker
    && r.plan.maxTokens == o.maxTokens
  }

  lemma {:induction false} WarmupStatus(batch: Batch, concurrency: nat, perWorker: nat, policy: Policy)
    requires batch.duration <= U64_MAX
    ensures var w := WarmupRow(batch, concurrency, perWorker, policy);
      && w.durationNs == batch.duration
      && w.status == if WarmupAbort(w, policy.abortErrorPercent).Some? then Aborted else Complete
  {
  }

  lemma {:induction false} WarmupOfRunIff(o: Options, env: Environment, r: Report, i: nat)
    requires Validate(o).Some? && Settings(o, r) && WarmupsFrom(o, r.policy, env, r.out.warmups)
    requires i < |r.out.warmups| && i < |o.concurrencyStages| && WarmupFromExecutor(o, env, i)
    ensures WarmupOk(r, i) <==> r.out.warmups[i].durationNs >= 1
  {
    PhaseCountsFit(o, i);
    var batch := env.warmup(i).value;
    var x: nat -> Exchange :| ExecutorBatch(batch, x, o.concurrencyStages[i], o.warmupRequestsPerWorker, o);
    WarmupRowAcceptedIff(batch, x, o.concurrencyStages[i], o.warmupRequestsPerWorker, o, r.policy);
    WarmupStatus(batch, o.concurrencyStages[i], o.warmupRequestsPerWorker, r.policy);
  }

  lemma {:induction false} StageOfRunIff(o: Options, env: Environment, r: Report, i: nat)
    requires Validate(o).Some? && Settings(o, r) && StagesFrom(o, r.policy, env, r.out.stages)
    requires i < |r.out.stages| && i < |o.concurrencyStages| && StageFromExecutor(o, env, i)
    ensures StageOk(r, i) <==> r.out.stages[i].durationNs >= 1 && NoInterruptedBody(r.out.stages[i].attempts)
  {
    AdmittedIff(o);
    PhaseCountsFit(o, i);
    var batch := env.stage(i).value;
    var x: nat -> Exchange :| ExecutorBatch(batch, x, o.concurrencyStages[i], o.requestsPerWorker, o);
    StageRowAcceptedIff(batch, x, o.concurrencyStages[i], o, r);
    DurationAccepted(batch.duration);
  }

  lemma {:induction false} WarmupsOfRunIff(o: Options, env: Environment, r: Report)
    requires Validate(o).Some? && Settings(o, r) && WarmupsFrom(o, r.policy, env, r.out.warmups) && ExecutorEnvironment(o, env)
    ensures |r.out.warmups| <= |r.plan.concurrencyStages|
    ensures WarmupsOk(r, |r.out.warmups|) <==> WarmupsLasted(r)
  {
    forall i: nat | i < |r.out.warmups| ensures WarmupOk(r, i) <==> r.out.warmups[i].durationNs >= 1 {
      WarmupOfRunIff(o, env, r, i);
    }
  }

  lemma {:induction false} StagesOfRunIff(o: Options, env: Environment, r: Report)
    requires Validate(o).Some? && Settings(o, r) && StagesFrom(o, r.policy, env, r.out.stages) && ExecutorEnvironment(o, env)
    ensures |r.out.stages| <= |r.plan.concurrencyStages|
    ensures StagesOk(r, |r.out.stages|) <==> StagesLasted(r) && NothingInterrupted(r)
  {
    forall i: nat | i < |r.out.stages|
      ensures StageOk(r, i) <==> r.out.stages[i].durationNs >= 1 && NoInterruptedBody(r.out.stages[i].attempts)
    {
      StageOfRunIff(o, env, r, i);
    }
  }

  lemma {:induction false} SomePhaseTime(out: Outcome)
    requires out.warmups != [] && out.warmups[|out.warmups| - 1].durationNs >= 1
    ensures PhaseTime(out) >= 1
  {
  }

  lemma {:induction false} SettingsOf(o: Options, r: Report)
    requires Validate(o).Some? && r.stream == o.stream && r.plan == PlanOf(o, Validate(o).value) && r.policy == PolicyOf(o)
    ensures Settings(o, r) && ValidSavedPlan(r.plan) && ValidSavedPolicy(r.policy, r.stream)
    ensures o.verifyConcurrency.Some? ==> o.verifyConcurrency.value in r.plan.concurrencyStages
  {
    AdmittedPlanIsValid(o);
    AdmittedPolicyIsValid(o);
    AdmittedIff(o);
  }

  lemma {:induction false} RequestedIs(requested: Option<nat>, stages: seq<Stage>)
    ensures Verify(requested, stages).requested == requested
  {
  }

  lemma {:induction false} EvidenceIffRows(o: Options, env: Environment, duration: nat, r: Report)
    requires Validate(o).Some? && IsEvidenceOf(o, env, duration, r) && PhaseTime(r.out) <= duration <= U64_MAX
    ensures |r.out.warmups| <= |r.plan.concurrencyStages| && |r.out.stages| <= |r.plan.concurrencyStages|
    ensures ValidEvidence(r) <==> duration >= 1 && RowsOk(r, |r.out.warmups|, |r.out.stages|)
  {
    SettingsOf(o, r);
    DurationAccepted(duration);
    RequestedIs(o.verifyConcurrency, r.out.stages);
  }

  lemma {:induction false} RowsOfRunIff(o: Options, env: Environment, r: Report)
    requires Validate(o).Some? && Settings(o, r) && RowsFrom(o, r.policy, env, r.out) && ExecutorEnvironment(o, env)
    ensures RowsOk(r, |r.out.warmups|, |r.out.stages|) <==> Lasted(r) && NothingInterrupted(r)
  {
    WarmupsOfRunIff(o, env, r);
    StagesOfRunIff(o, env, r);
  }

  lemma {:induction false} EvidenceAcceptedIff(o: Options, env: Environment, duration: nat, r: Report)
    requires Validate(o).Some? && IsEvidenceOf(o, env, duration, r) && ExecutorEnvironment(o, env)
    requires PhaseTime(r.out) <= duration <= U64_MAX
    ensures ValidEvidence(r) <==> Lasted(r) && NothingInterrupted(r)
  {
    EvidenceIffRows(o, env, duration, r);
    SettingsOf(o, r);
    RowsOfRunIff(o, env, r);
    if Lasted(r) { SomePhaseTime(r.out); }
  }

  lemma {:induction false} HeaderAcceptedIff(o: Options, web: Web, r: Report)
    requires Validate(o).Some? && IsHeaderOf(o, web, r) && OriginsReadBack(web)
    ensures ValidHeader(r, web) <==> Utf8Len(r.url) <= MAX_IDENTITY_BYTES
  {
    AdmittedIff(o);
    ReportedTargetValidIff(o, web);
  }

  /** The validator accepts the report of a run iff every reached phase lasted at least one
      nanosecond, no retained attempt is a transport failure that still carries an HTTP status, and
      the origin of the server is at most 64 KiB long. */
  lemma {:induction false} ReportAcceptedIff(o: Options, web: Web, env: Environment, duration: nat, r: Report)
    requires IsReportOf(o, web, env, duration, r) && ExecutorEnvironment(o, env) && OriginsReadBack(web)
    requires PhaseTime(r.out) <= duration <= U64_MAX
    ensures ValidReport(r, web) <==> Lasted(r) && NothingInterrupted(r) && Utf8Len(r.url) <= MAX_IDENTITY_BYTES
  {
    EvidenceAcceptedIff(o, env, duration, r);
    HeaderAcceptedIff(o, web, r);
  }
}
