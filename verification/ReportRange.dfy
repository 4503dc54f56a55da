/** Which accepted reports are reports of a run. The validator checks a report against itself; these
    are the conditions under which admitted options and requests exist that it tells of. */
module ReportRange {
  import opened Common
  import opened Attempts
  import opened Admission
  import opened Ladder
  import opened Assessment
  import opened SavedReport
  import opened ProducerAccepted
  import opened Target
  import E = ReportEvidence
  import W = WarmupReplay
  import Workload

  // ---- The settings ----

  /** Latency thresholds are whole nanoseconds. */
  ghost predicate WholePolicy(p: Policy) { WholeNanoseconds(p.maxP95TtftMs) && WholeNanoseconds(p.maxP95E2eMs) }

  ghost function NsOf(ms: Option<real>): Option<nat>
    requires WholeNanoseconds(ms)
  {
    if ms.None? then None else Some(Nanoseconds(ms))
  }

  ghost function ThresholdsOf(p: Policy): Thresholds
    requires WholePolicy(p)
  {
    Thresholds(p.maxErrorPercent, NsOf(p.maxP95TtftMs), NsOf(p.maxP95E2eMs),
               p.minSuccessfulRequestsPerSecond, p.minCompletionTokenGoodputPerSecond, p.abortErrorPercent)
  }

  /** The smallest options for a base URL whose run could have left the report. */
  ghost function OptionsOf(r: Report, baseUrl: string): Options
    requires WholePolicy(r.policy)
  {
    OptionsWith(r.plan, Names(baseUrl, r.model, r.workloadId), r.stream, r.policy.expectationConfigured, r.verification.requested, ThresholdsOf(r.policy))
  }

  lemma {:induction false} ThresholdBack(ms: Option<real>)
    requires WholeNanoseconds(ms)
    ensures InMilliseconds(NsOf(ms)) == ms
    ensures (ms.Some? ==> 0.0 < ms.value <= 300_000.0) ==> LatencyThreshold(NsOf(ms))
  {
    if ms.Some? {
      var ns := Nanoseconds(ms);
      assert Milliseconds(MAX_REQUEST_TIMEOUT) == 300_000.0 && Milliseconds(0) == 0.0;
      MillisecondsOrdered(ns, MAX_REQUEST_TIMEOUT);
    }
  }

  lemma {:induction false} PolicyIsOf(r: Report, baseUrl: string)
    requires ValidSavedPolicy(r.policy, r.stream) && WholePolicy(r.policy)
    ensures PolicyOf(OptionsOf(r, baseUrl)) == r.policy && ValidThresholds(OptionsOf(r, baseUrl))
  {
    ThresholdBack(r.policy.maxP95TtftMs);
    ThresholdBack(r.policy.maxP95E2eMs);
  }

  // ---- The evidence ----

  /** Whole nanoseconds that fit 64 bits, and token rates as the times and tokens give them. */
  ghost predicate AttemptsMeasured(attempts: seq<Attempt>) {
    forall i :: 0 <= i < |attempts| ==> Measured64(attempts[i])
  }

  ghost predicate Measured64(a: Attempt) { WholeTimes(a) && RateAsMeasured(a) && Nanoseconds(a.e2eMs) <= U64_MAX }

  ghost predicate WarmupsAllowed(r: Report) {
    forall i :: 0 <= i < |r.out.warmups| ==> W.Allowed(r.out.warmups[i], r.policy.expectationConfigured)
  }

  ghost predicate StagesMeasured(r: Report) { forall i :: 0 <= i < |r.out.stages| ==> AttemptsMeasured(r.out.stages[i].attempts) }

  /** A base URL with the origin of the report under which the working set is within the limit. */
  ghost predicate Affordable(r: Report, web: Web, baseUrl: string)
    requires WholePolicy(r.policy)
  {
    && ValidIdentity(baseUrl) && OriginFor(baseUrl, true, web) == Some(r.url)
    && WorkingSet(OptionsOf(r, baseUrl), r.plan.plannedAttempts) <= MAX_AGGREGATE_MEMORY_BYTES
  }

  /** What the validator leaves unchecked and a run guarantees: a working set within the limit under
      the recorded model and workload and some base URL of the recorded origin, thresholds and times
      that are clock readings, rates as measured, and expectation failures in a warmup only where an
      expectation is configured. */
  ghost predicate Told(r: Report, web: Web) {
    && WholePolicy(r.policy) && (exists baseUrl: string :: Affordable(r, web, baseUrl))
    && WarmupsAllowed(r) && StagesMeasured(r)
  }

  /** Durations are 64-bit numbers. */
  ghost predicate Fits64(r: Report) {
    && r.durationNs <= U64_MAX
    && (forall i :: 0 <= i < |r.out.warmups| ==> r.out.warmups[i].durationNs <= U64_MAX)
    && (forall i :: 0 <= i < |r.out.stages| ==> r.out.stages[i].durationNs <= U64_MAX)
  }

  // ---- Stages ----

  ghost function ReplayOf(attempts: seq<Attempt>, configured: bool): nat -> Exchange
    requires AttemptsMeasured(attempts)
  {
    (i: nat) => if i < |attempts| && Measured64(attempts[i]) then Replay(attempts[i], configured) else SendFailed(0)
  }

  lemma {:induction false} ReplayTakes(a: Attempt, configured: bool)
    requires WholeTimes(a)
    ensures Replay(a, configured).finish == Nanoseconds(a.e2eMs)
  {
  }

  lemma {:induction false} TimeIsFinish(attempts: seq<Attempt>, configured: bool, from: nat, till: nat)
    requires AttemptsMeasured(attempts) && from <= till <= |attempts| && TimeOf(attempts, from, till).Some?
    ensures FinishSum(ReplayOf(attempts, configured), from, till) == TimeOf(attempts, from, till).value
    decreases till
  {
    if from < till {
      TimeIsFinish(attempts, configured, from, till - 1);
      assert Measured64(attempts[till - 1]);
      ReplayTakes(attempts[till - 1], configured);
      NanosecondsExact(Nanoseconds(attempts[till - 1].e2eMs));
    }
  }

  lemma {:induction false} ShareInBatch(concurrency: nat, perWorker: nat, k: nat)
    requires k < concurrency
    ensures k * perWorker <= (k + 1) * perWorker <= concurrency * perWorker
  {
    ProductBound(k, perWorker, k + 1, perWorker);
    ProductBound(k + 1, perWorker, concurrency, perWorker);
  }

  lemma {:induction false} AttemptIsRecord(s: Stage, i: nat, r: Report, o: Options)
    requires AttemptsOk(s.attempts, r) && AttemptsMeasured(s.attempts) && i < |s.attempts|
    requires o.stream == r.stream && o.maxTokens == r.plan.maxTokens && o.expectation.Some? == r.policy.expectationConfigured
    ensures RecordOf(s.attempts[i], i, ReplayOf(s.attempts, o.expectation.Some?), o)
  {
    assert AttemptOk(s.attempts, i, r) && Measured64(s.attempts[i]);
    MeasuredIsRecord(s.attempts[i], o.stream, o.expectation.Some?, o.maxTokens);
  }

  lemma {:induction false} ShareIsInTime(attempts: seq<Attempt>, configured: bool, concurrency: nat, w: nat, k: nat, duration: nat)
    requires AttemptsMeasured(attempts) && |attempts| == concurrency * w && k < concurrency && ChunkFits(attempts, w, duration, k)
    ensures FinishSum(ReplayOf(attempts, configured), k * w, (k + 1) * w) <= duration
  {
    ShareInBatch(concurrency, w, k);
    TimeIsFinish(attempts, configured, k * w, (k + 1) * w);
  }

  /** The retained results of an accepted stage with measured attempts are a batch of the executor. */
  lemma {:induction false} StageIsExecuted(s: Stage, concurrency: nat, r: Report, o: Options)
    requires ValidStage(s, concurrency, r) && s.durationNs <= U64_MAX && AttemptsMeasured(s.attempts)
    requires o.stream == r.stream && o.maxTokens == r.plan.maxTokens && o.expectation.Some? == r.policy.expectationConfigured
    ensures FromExecutor(Workload.Batch(s.durationNs, s.attempts), concurrency, r.plan.requestsPerWorker, o)
  {
    var w := r.plan.requestsPerWorker;
    assert WorkersFit(s.attempts, w, s.durationNs) && |s.attempts| == concurrency * w;
    AttemptsAreExecuted(s, concurrency, w, r, o);
  }

  lemma {:induction false} AttemptsAreExecuted(s: Stage, concurrency: nat, w: nat, r: Report, o: Options)
    requires |s.attempts| == concurrency * w && s.durationNs <= U64_MAX && AttemptsMeasured(s.attempts)
    requires WorkersFit(s.attempts, w, s.durationNs) && AttemptsOk(s.attempts, r)
    requires o.stream == r.stream && o.maxTokens == r.plan.maxTokens && o.expectation.Some? == r.policy.expectationConfigured
    ensures FromExecutor(Workload.Batch(s.durationNs, s.attempts), concurrency, w, o)
  {
    var batch: Batch, x := Workload.Batch(s.durationNs, s.attempts), ReplayOf(s.attempts, o.expectation.Some?);
    forall i: nat | i < |batch.results| ensures RecordOf(batch.results[i], i, x, o) { AttemptIsRecord(s, i, r, o); }
    forall k: nat | k < concurrency ensures ShareFits(batch, x, k, w) {
      assert ChunkFits(s.attempts, w, s.durationNs, k);
      ShareIsInTime(s.attempts, o.expectation.Some?, concurrency, w, k, s.durationNs);
    }
    assert ExecutorBatch(batch, x, concurrency, w, o);
  }

  // ---- From the report to a run ----

  ghost function RetainedWarmup(r: Report, o: Options): nat -> Option<Batch> {
    (i: nat) => if i < |r.out.warmups| then Some(W.BatchFor(r.out.warmups[i], o)) else None
  }

  /** The executor results an accepted report retains for its stages. */
  ghost function RetainedStage(r: Report): nat -> Option<Batch> {
    (i: nat) => if i < |r.out.stages| then Some(Workload.Batch(r.out.stages[i].durationNs, r.out.stages[i].attempts)) else None
  }

  ghost function RetainedBy(r: Report, o: Options): Environment { Environment(RetainedWarmup(r, o), RetainedStage(r)) }

  /** Options with the settings a report records. */
  ghost predicate SettingsFrom(o: Options, r: Report) { Settings(o, r) && o.expectation.Some? == r.policy.expectationConfigured }

  /** Warmup row `i` is the row of a batch of the executor. */
  ghost predicate WarmupReplayed(r: Report, o: Options, i: nat)
    requires i < |r.out.warmups|
  {
    var batch := W.BatchFor(r.out.warmups[i], o);
    && i < |o.concurrencyStages|
    && r.out.warmups[i] == WarmupRow(batch, o.concurrencyStages[i], o.warmupRequestsPerWorker, r.policy)
    && FromExecutor(batch, o.concurrencyStages[i], o.warmupRequestsPerWorker, o)
  }

  lemma {:induction false} WarmupAt(r: Report, o: Options, i: nat)
    requires ValidEvidence(r) && Fits64(r) && WarmupsAllowed(r) && SettingsFrom(o, r) && i < |r.out.warmups|
    ensures WarmupReplayed(r, o, i)
  {
    assert WarmupOk(r, i) && W.Allowed(r.out.warmups[i], o.expectation.Some?);
    W.AcceptedWarmupIsRow(r.out.warmups[i], r.plan.concurrencyStages[i], r.plan.warmupRequestsPerWorker, o, r.policy);
    W.WarmupBatchIsExecuted(r.out.warmups[i], r.plan.concurrencyStages[i], r.plan.warmupRequestsPerWorker, o);
  }

  lemma {:induction false} StageAt(r: Report, o: Options, i: nat)
    requires ValidEvidence(r) && Fits64(r) && StagesMeasured(r) && SettingsFrom(o, r) && i < |r.out.stages|
    ensures i < |o.concurrencyStages|
    ensures var batch := Workload.Batch(r.out.stages[i].durationNs, r.out.stages[i].attempts);
      && r.out.stages[i] == StageRow(batch, o.concurrencyStages[i], o.requestsPerWorker, o.maxTokens, r.policy)
      && FromExecutor(batch, o.concurrencyStages[i], o.requestsPerWorker, o)
  {
    assert StageOk(r, i) && AttemptsMeasured(r.out.stages[i].attempts);
    E.AcceptedStageIsRow(r.out.stages[i], r.plan.concurrencyStages[i], r);
    StageIsExecuted(r.out.stages[i], r.plan.concurrencyStages[i], r, o);
  }

  lemma {:induction false} WarmupsRetained(r: Report, o: Options)
    requires |r.out.warmups| <= |o.concurrencyStages| && forall i: nat :: i < |r.out.warmups| ==> WarmupReplayed(r, o, i)
    ensures WarmupsFrom(o, r.policy, RetainedBy(r, o), r.out.warmups)
    ensures forall i: nat :: i < |o.concurrencyStages| ==> WarmupFromExecutor(o, RetainedBy(r, o), i)
  {
    forall i: nat | i < |o.concurrencyStages| ensures WarmupFromExecutor(o, RetainedBy(r, o), i) {
      assert i < |r.out.warmups| ==> WarmupReplayed(r, o, i);
    }
    forall i: nat | i < |r.out.warmups|
      ensures r.out.warmups[i] == WarmupRow(RetainedBy(r, o).warmup(i).value, o.concurrencyStages[i], o.warmupRequestsPerWorker, r.policy)
    {
      assert WarmupReplayed(r, o, i);
    }
  }

  lemma {:induction false} StagesRetained(r: Report, o: Options)
    requires ValidEvidence(r) && Fits64(r) && StagesMeasured(r) && SettingsFrom(o, r)
    ensures StagesFrom(o, r.policy, RetainedBy(r, o), r.out.stages)
    ensures forall i: nat :: i < |o.concurrencyStages| ==> StageFromExecutor(o, RetainedBy(r, o), i)
  {
    forall i: nat | i < |r.out.stages|
      ensures r.out.stages[i] == StageRow(RetainedBy(r, o).stage(i).value, o.concurrencyStages[i], o.requestsPerWorker, o.maxTokens, r.policy)
      ensures i < |o.concurrencyStages| && StageFromExecutor(o, RetainedBy(r, o), i)
    {
      StageAt(r, o, i);
    }
  }

  lemma {:induction false} RowsRetained(r: Report, o: Options)
    requires ValidEvidence(r) && Fits64(r) && WarmupsAllowed(r) && StagesMeasured(r) && SettingsFrom(o, r)
    ensures RowsFrom(o, r.policy, RetainedBy(r, o), r.out) && ExecutorEnvironment(o, RetainedBy(r, o))
  {
    forall i: nat | i < |r.out.warmups| ensures WarmupReplayed(r, o, i) { WarmupAt(r, o, i); }
    WarmupsRetained(r, o);
    StagesRetained(r, o);
  }

  lemma {:induction false} HeaderIsOf(r: Report, web: Web, baseUrl: string)
    requires ValidReport(r, web) && WholePolicy(r.policy) && Affordable(r, web, baseUrl) && web.ready
    ensures IsHeaderOf(OptionsOf(r, baseUrl), web, r) && ValidNames(Names(baseUrl, r.model, r.workloadId))
  {
  }

  /** An accepted report that is told as a run tells is the report of a run. */
  lemma {:induction false} AcceptedIsRun(r: Report, web: Web, baseUrl: string)
    requires ValidReport(r, web) && Fits64(r) && Told(r, web) && Affordable(r, web, baseUrl) && web.ready
    ensures var o := OptionsOf(r, baseUrl);
      IsReportOf(o, web, RetainedBy(r, o), r.durationNs, r) && ExecutorEnvironment(o, RetainedBy(r, o))
  {
    var o := OptionsOf(r, baseUrl);
    HeaderIsOf(r, web, baseUrl);
    PolicyIsOf(r, baseUrl);
    SmallAdmittedIff(r.plan, Names(baseUrl, r.model, r.workloadId), r.stream, r.policy.expectationConfigured, r.verification.requested,
                     ThresholdsOf(r.policy));
    assert Records(o, r.plan);
    RowsRetained(r, o);
  }

  /** The recorded origin itself serves for a base URL when there is memory for it. */
  lemma {:induction false} OwnOriginAffordable(r: Report, web: Web)
    requires ValidReport(r, web) && OriginsReadBack(web) && WholePolicy(r.policy)
    requires WorkingSet(OptionsOf(r, r.url), r.plan.plannedAttempts) <= MAX_AGGREGATE_MEMORY_BYTES
    ensures Affordable(r, web, r.url)
  {
    SavedTargetConnects(r.url, r.model, web);
  }

  // ---- From a run to the report ----

  lemma {:induction false} OwnFinishInSum(x: nat -> Exchange, from: nat, till: nat, i: nat)
    requires from <= i < till
    ensures x(i).finish <= FinishSum(x, from, till)
    decreases till
  {
    if i < till - 1 { OwnFinishInSum(x, from, till - 1, i); }
  }

  lemma {:induction false} OwnShare(concurrency: nat, perWorker: nat, i: nat) returns (k: nat)
    requires i < concurrency * perWorker
    ensures k < concurrency && k * perWorker <= i < (k + 1) * perWorker
  {
    if i < (concurrency - 1) * perWorker { k := OwnShare(concurrency - 1, perWorker, i); } else { k := concurrency - 1; }
  }

  lemma {:induction false} ExecutedIsMeasured(batch: Batch, concurrency: nat, perWorker: nat, o: Options)
    requires FromExecutor(batch, concurrency, perWorker, o)
    ensures AttemptsMeasured(batch.results)
  {
    var x: nat -> Exchange :| ExecutorBatch(batch, x, concurrency, perWorker, o);
    forall i: nat | i < |batch.results| ensures Measured64(batch.results[i]) {
      assert RecordOf(batch.results[i], i, x, o);
      RecordIsMeasured(i, x(i), o.maxTokens);
      var k := OwnShare(concurrency, perWorker, i);
      assert ShareFits(batch, x, k, perWorker);
      OwnFinishInSum(x, k * perWorker, (k + 1) * perWorker, i);
    }
  }

  lemma {:induction false} ThresholdIsWhole(t: Option<nat>)
    ensures WholeNanoseconds(InMilliseconds(t))
  {
    if t.Some? { NanosecondsBack(t.value); }
  }

  lemma {:induction false} RowsAreTold(o: Options, env: Environment, r: Report)
    requires RowsFrom(o, r.policy, env, r.out) && ExecutorEnvironment(o, env) && r.policy == PolicyOf(o)
    ensures WarmupsAllowed(r) && StagesMeasured(r)
  {
    forall i: nat | i < |r.out.warmups| ensures W.Allowed(r.out.warmups[i], r.policy.expectationConfigured) {
      assert WarmupFromExecutor(o, env, i);
      W.ExecutedIsAllowed(env.warmup(i).value, o.concurrencyStages[i], o.warmupRequestsPerWorker, o, r.policy);
    }
    forall i: nat | i < |r.out.stages| ensures AttemptsMeasured(r.out.stages[i].attempts) {
      assert StageFromExecutor(o, env, i);
      ExecutedIsMeasured(env.stage(i).value, o.concurrencyStages[i], o.requestsPerWorker, o);
    }
  }

  /** The base URL of a run serves, and no smaller options for it need more. */
  lemma {:induction false} RunIsAffordable(o: Options, web: Web, r: Report)
    requires Records(o, r.plan) && IsHeaderOf(o, web, r) && r.policy == PolicyOf(o) && WholePolicy(r.policy) && r.stream == o.stream
    ensures Affordable(r, web, o.baseUrl)
  {
    AdmittedIff(o);
    SwitchOnlyAdmits(o.baseUrl, o.allowInsecureHttp, web);
    SmallIsLeast(o, r.plan, Names(o.baseUrl, r.model, r.workloadId), r.stream, r.policy.expectationConfigured, r.verification.requested,
                 ThresholdsOf(r.policy));
  }

  /** The report of a run is told as a run tells. */
  lemma {:induction false} RunIsTold(o: Options, web: Web, env: Environment, duration: nat, r: Report)
    requires IsReportOf(o, web, env, duration, r) && ExecutorEnvironment(o, env)
    ensures Told(r, web)
  {
    ThresholdIsWhole(o.thresholds.maxP95Ttft);
    ThresholdIsWhole(o.thresholds.maxP95E2e);
    assert Records(o, r.plan);
    RunIsAffordable(o, web, r);
    RowsAreTold(o, env, r);
  }

  /** A run of the executor's batches that lasted, without a body that broke off, against a server
      whose origin is at most 64 KiB long, and its report. */
  ghost predicate RunReports(o: Options, web: Web, env: Environment, duration: nat, r: Report) {
    && IsReportOf(o, web, env, duration, r) && ExecutorEnvironment(o, env) && PhaseTime(r.out) <= duration <= U64_MAX
    && Lasted(r) && NothingInterrupted(r) && Utf8Len(r.url) <= MAX_IDENTITY_BYTES
  }

  lemma {:induction false} OriginBounded(r: Report, web: Web)
    requires ValidReport(r, web)
    ensures Utf8Len(r.url) <= MAX_IDENTITY_BYTES && PhaseTime(r.out) <= r.durationNs
  {
  }

  /** The validator and the producer meet exactly here: a report is accepted and told as a run tells
      iff it is the report of some admitted run in which every reached phase lasted a nanosecond and
      no transport failure kept an HTTP status, against a server whose origin is not too long. */
  lemma {:induction false} AcceptedAndToldIff(r: Report, web: Web)
    requires Fits64(r) && OriginsReadBack(web) && web.ready
    ensures ValidReport(r, web) && Told(r, web)
       <==> exists o: Options, env: Environment, duration: nat :: RunReports(o, web, env, duration, r)
  {
    if ValidReport(r, web) && Told(r, web) {
      var baseUrl: string :| Affordable(r, web, baseUrl);
      var o := OptionsOf(r, baseUrl);
      AcceptedIsRun(r, web, baseUrl);
      OriginBounded(r, web);
      ReportAcceptedIff(o, web, RetainedBy(r, o), r.durationNs, r);
      assert RunReports(o, web, RetainedBy(r, o), r.durationNs, r);
    }
    if o: Options, env: Environment, duration: nat :| RunReports(o, web, env, duration, r) {
      ReportAcceptedIff(o, web, env, duration, r);
      RunIsTold(o, web, env, duration, r);
    }
  }
}
