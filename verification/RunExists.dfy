/** Admitted options have runs, among them one whose report is accepted: the conditions of the results
    about runs can be met, whatever was admitted. */
module RunExists {
  import opened Common
  import opened Attempts
  import opened Admission
  import opened StageSummary
  import opened Ladder
  import opened Assessment
  import opened SavedReport
  import opened ProducerAccepted
  import opened Target
  import R = ReportRange
  import B = RunBudget
  import W = WarmupReplay
  import Workload

  // ---- The ladder of an environment ----

  ghost predicate Supplies(env: Environment, n: nat) { forall i: nat :: i < n ==> env.warmup(i).Some? && env.stage(i).Some? }

  /** An environment that has a batch for every phase has a ladder. */
  lemma {:induction false} LadderExists(o: Options, policy: Policy, env: Environment, warmups: seq<Warmup>, stages: seq<Stage>)
    returns (out: Outcome)
    requires o.concurrencyStages != [] && Supplies(env, |o.concurrencyStages|)
    requires |warmups| == |stages| <= |o.concurrencyStages|
    requires WarmupsFrom(o, policy, env, warmups) && StagesFrom(o, policy, env, stages)
    requires NoAbort(warmups, stages, |stages|, policy.abortErrorPercent)
    ensures IsLadder(|o.concurrencyStages|, out, policy.abortErrorPercent) && RowsFrom(o, policy, env, out)
    decreases |o.concurrencyStages| - |stages|
  {
    var n, position := |o.concurrencyStages|, |stages|;
    if position == n {
      Completes(n, warmups, stages, policy.abortErrorPercent);
      return Outcome(warmups, stages, None);
    }
    var warmup := WarmupRow(env.warmup(position).value, o.concurrencyStages[position], o.warmupRequestsPerWorker, policy);
    WarmupsGrow(o, policy, env, warmups, warmup);
    var warmupAbort := WarmupAbort(warmup, policy.abortErrorPercent);
    if warmupAbort.Some? {
      EndsInWarmup(n, warmups, stages, warmup, policy.abortErrorPercent);
      return Outcome(warmups + [warmup], stages, warmupAbort);
    }
    var stage := StageRow(env.stage(position).value, o.concurrencyStages[position], o.requestsPerWorker, o.maxTokens, policy);
    StagesGrow(o, policy, env, stages, stage);
    var stageAbort := StageAbort(stage.summary, policy.abortErrorPercent);
    if stageAbort.Some? {
      EndsInStage(n, warmups, stages, warmup, stage, policy.abortErrorPercent);
      return Outcome(warmups + [warmup], stages + [stage], stageAbort);
    }
    NoAbortGrows(warmups, stages, warmup, stage, policy.abortErrorPercent);
    out := LadderExists(o, policy, env, warmups + [warmup], stages + [stage]);
  }

  // ---- A server that always answers ----

  function Reply(o: Options): Exchange { W.Specimen(None, o.stream, o.expectation.Some?) }

  /** Every request answered, in a nanosecond. */
  function Answers(count: nat, o: Options): Batch {
    Workload.Batch(1, seq(count, i requires 0 <= i < count => Record(i, Reply(o), o.maxTokens)))
  }

  lemma {:induction false} AnswersAreExecuted(concurrency: nat, perWorker: nat, o: Options)
    ensures FromExecutor(Answers(concurrency * perWorker, o), concurrency, perWorker, o)
    ensures NoInterruptedBody(Answers(concurrency * perWorker, o).results)
  {
    var batch := Answers(concurrency * perWorker, o);
    var x: nat -> Exchange := (i: nat) => Reply(o);
    forall i: nat | i < |batch.results| ensures RecordOf(batch.results[i], i, x, o) && !InterruptedBody(batch.results[i]) {
      W.SpecimenShows(None, i, o.stream, o.expectation.Some?, o.maxTokens);
    }
    W.SpecimenShows(None, 0, o.stream, o.expectation.Some?, o.maxTokens);
    forall k: nat | k < concurrency ensures ShareFits(batch, x, k, perWorker) { W.NoTime(x, k * perWorker, (k + 1) * perWorker); }
    assert ExecutorBatch(batch, x, concurrency, perWorker, o);
  }

  ghost function Answering(o: Options): Environment {
    Environment(
      (i: nat) => if i < |o.concurrencyStages| then Some(Answers(o.concurrencyStages[i] * o.warmupRequestsPerWorker, o)) else None,
      (i: nat) => if i < |o.concurrencyStages| then Some(Answers(o.concurrencyStages[i] * o.requestsPerWorker, o)) else None)
  }

  lemma {:induction false} AnsweringIsExecuted(o: Options)
    ensures ExecutorEnvironment(o, Answering(o)) && Supplies(Answering(o), |o.concurrencyStages|)
  {
    forall i: nat | i < |o.concurrencyStages| ensures WarmupFromExecutor(o, Answering(o), i) && StageFromExecutor(o, Answering(o), i) {
      AnswersAreExecuted(o.concurrencyStages[i], o.warmupRequestsPerWorker, o);
      AnswersAreExecuted(o.concurrencyStages[i], o.requestsPerWorker, o);
    }
  }

  lemma {:induction false} RowsOfAnswers(o: Options, policy: Policy, out: Outcome)
    requires RowsFrom(o, policy, Answering(o), out)
    ensures forall i :: 0 <= i < |out.warmups| ==> out.warmups[i].durationNs == 1
    ensures forall i :: 0 <= i < |out.stages| ==> out.stages[i].durationNs == 1 && NoInterruptedBody(out.stages[i].attempts)
  {
    forall i: nat | i < |out.stages| ensures NoInterruptedBody(out.stages[i].attempts) {
      AnswersAreExecuted(o.concurrencyStages[i], o.requestsPerWorker, o);
    }
  }

  lemma {:induction false} PhasesShort(out: Outcome, n: nat)
    requires |out.warmups| <= n && |out.stages| <= n <= MAX_STAGES
    requires forall i :: 0 <= i < |out.warmups| ==> out.warmups[i].durationNs == 1
    requires forall i :: 0 <= i < |out.stages| ==> out.stages[i].durationNs == 1
    ensures PhaseTime(out) <= U64_MAX
  {
    B.WarmupTimeBounded(out.warmups, 1);
    B.StageTimeBounded(out.stages, 1);
  }

  ghost function ReportFor(o: Options, url: string, startedAt: int, out: Outcome): Report
    requires Validate(o).Some?
  {
    var d := PhaseTime(out);
    Report(REPORT_VERSION, startedAt, ElapsedNanos(d), ElapsedMillis(d), if out.abortReason.Some? then RunAborted else RunComplete,
           o.workloadId, url, o.model, o.stream, PlanOf(o, Validate(o).value), PolicyOf(o), out,
           AssessmentOf(out.stages, PolicyOf(o)), Verify(o.verifyConcurrency, out.stages), NONCLAIMS)
  }

  lemma {:induction false} AdmittedHasStages(o: Options)
    requires Validate(o).Some?
    ensures 1 <= |o.concurrencyStages| <= MAX_STAGES
  {
    AdmittedIff(o);
  }

  lemma {:induction false} ReportForIs(o: Options, web: Web, env: Environment, startedAt: int, out: Outcome)
    requires Validate(o).Some? && Connect(o, web).Some? && RowsFrom(o, PolicyOf(o), env, out)
    requires IsLadder(|o.concurrencyStages|, out, PolicyOf(o).abortErrorPercent)
    ensures IsReportOf(o, web, env, PhaseTime(out), ReportFor(o, Connect(o, web).value, startedAt, out))
  {
  }

  lemma {:induction false} ReportForLasted(o: Options, url: string, startedAt: int, out: Outcome)
    requires Validate(o).Some?
    requires forall i :: 0 <= i < |out.warmups| ==> out.warmups[i].durationNs == 1
    requires forall i :: 0 <= i < |out.stages| ==> out.stages[i].durationNs == 1 && NoInterruptedBody(out.stages[i].attempts)
    ensures var r := ReportFor(o, url, startedAt, out); Lasted(r) && NothingInterrupted(r) && r.out == out && r.url == url
  {
  }

  /** Whatever options are admitted, if the client for them can be built then some run of them leaves a
      report, and the validator accepts it if the origin of the server is not too long. */
  lemma {:induction false} AdmittedRunsReport(o: Options, web: Web, startedAt: int) returns (env: Environment, duration: nat, r: Report)
    requires Validate(o).Some? && Connect(o, web).Some? && OriginsReadBack(web)
    requires Utf8Len(Connect(o, web).value) <= MAX_IDENTITY_BYTES
    ensures R.RunReports(o, web, env, duration, r) && r.startedAt == startedAt && ValidReport(r, web)
  {
    AdmittedHasStages(o);
    AnsweringIsExecuted(o);
    var url := Connect(o, web).value;
    var out := LadderExists(o, PolicyOf(o), Answering(o), [], []);
    env, duration, r := Answering(o), PhaseTime(out), ReportFor(o, url, startedAt, out);
    RowsOfAnswers(o, PolicyOf(o), out);
    PhasesShort(out, |o.concurrencyStages|);
    ReportForIs(o, web, env, startedAt, out);
    ReportForLasted(o, url, startedAt, out);
    ReportAcceptedIff(o, web, env, duration, r);
  }
}
