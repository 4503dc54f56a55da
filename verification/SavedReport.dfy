/** The validator of saved saturation reports, which rebuilds every row from the retained evidence
    and accepts exactly the ladders. */
module SavedReport {
  import opened Common
  import opened Attempts
  import opened Admission
  import opened StageSummary
  import opened Ladder
  import opened Assessment
  import opened Target

  const REPORT_VERSION: nat := 1

  datatype RunStatus = RunComplete | RunAborted

  /** What a benchmark does not claim. */
  datatype Nonclaim =
    | ClosedLoopMayHideCoordinatedOmission | SingleLoadGeneratorMayBeTheBottleneck | TestedConcurrencyPointsOnly
    | ConcurrencyIsNotBatchSizeOrGpuOccupancy | SyntheticWorkloadMayBenefitFromCaching | ExternalTrafficIsNotIsolated
    | TokenGoodputUsesEndpointReportedUsage | HighestAcceptedIsNotProductionCapacityOrRecommendation
    | NoProductionSlaCertification | NotDistributedOpenLoopSoakOrBreakpointTesting

  const NONCLAIMS: seq<Nonclaim> := [
    ClosedLoopMayHideCoordinatedOmission, SingleLoadGeneratorMayBeTheBottleneck, TestedConcurrencyPointsOnly,
    ConcurrencyIsNotBatchSizeOrGpuOccupancy, SyntheticWorkloadMayBenefitFromCaching, ExternalTrafficIsNotIsolated,
    TokenGoodputUsesEndpointReportedUsage, HighestAcceptedIsNotProductionCapacityOrRecommendation,
    NoProductionSlaCertification, NotDistributedOpenLoopSoakOrBreakpointTesting]

  /** A report as it is saved. `url` is the origin the requests went to. */
  datatype Report = Report(
    version: nat, startedAt: int, durationNs: nat, durationMs: nat, status: RunStatus, workloadId: string,
    url: string, model: string, stream: bool, plan: Plan, policy: Policy,
    out: Outcome, assessment: Assessed, verification: Verification, nonclaims: seq<Nonclaim>)

  // ---- One row ----

  predicate ValidDuration(ns: nat, ms: nat) { ns != 0 && ms == ns / 1_000_000 }

  predicate ValidWarmup(w: Warmup, concurrency: nat, perWorker: nat) {
    && concurrency * perWorker <= U32_MAX
    && w.concurrency == concurrency && w.planned == concurrency * perWorker && w.attempted == w.planned
    && w.succeeded + w.failed <= U32_MAX && w.succeeded + w.failed == w.attempted
    && FailureTotal(w.failures) == Some(w.failed)
    && w.errorPercent == ErrorPercent(w.failed, w.attempted)
    && ValidDuration(w.durationNs, w.durationMs)
  }

  ghost predicate AttemptOk(attempts: seq<Attempt>, i: nat, r: Report)
    requires i < |attempts|
  {
    attempts[i].index == i && ValidAttempt(attempts[i], r.stream, r.policy.expectationConfigured, r.plan.maxTokens)
  }

  ghost predicate AttemptsOk(attempts: seq<Attempt>, r: Report) {
    forall i: nat :: i < |attempts| ==> AttemptOk(attempts, i, r)
  }

  ghost predicate ValidStage(s: Stage, concurrency: nat, r: Report) {
    && concurrency * r.plan.requestsPerWorker <= U32_MAX
    && s.status == Complete && s.concurrency == concurrency && s.planned == concurrency * r.plan.requestsPerWorker
    && |s.attempts| == s.planned && ValidDuration(s.durationNs, s.durationMs)
    && WorkersFit(s.attempts, r.plan.requestsPerWorker, s.durationNs)
    && AttemptsOk(s.attempts, r)
    && s.summary == SummaryOf(s.attempts, s.durationNs, r.plan.maxTokens)
    && s.gates == GatesOf(s.summary, r.policy)
  }

  method ValidateAttempts(attempts: seq<Attempt>, r: Report) returns (valid: bool)
    ensures valid == AttemptsOk(attempts, r)
  {
    for i: nat := 0 to |attempts|
      invariant forall j: nat :: j < i ==> AttemptOk(attempts, j, r)
    {
      if !(attempts[i].index == i && ValidAttempt(attempts[i], r.stream, r.policy.expectationConfigured, r.plan.maxTokens)) {
        assert !AttemptOk(attempts, i, r);
        return false;
      }
    }
    return true;
  }

  method ValidateSavedStage(s: Stage, concurrency: nat, r: Report) returns (valid: bool)
    requires r.plan.requestsPerWorker > 0
    ensures valid == ValidStage(s, concurrency, r)
  {
    var planned := concurrency * r.plan.requestsPerWorker;
    if planned > U32_MAX { return false; }
    if s.status != Complete || s.concurrency != concurrency || s.planned != planned
       || |s.attempts| != planned || !ValidDuration(s.durationNs, s.durationMs) { return false; }
    var fits := ValidateWorkerDurationLowerBound(s.attempts, r.plan.requestsPerWorker, s.durationNs);
    if !fits { return false; }
    var attemptsValid := ValidateAttempts(s.attempts, r);
    if !attemptsValid { return false; }
    var reconstructed := SummaryOf(s.attempts, s.durationNs, r.plan.maxTokens);
    if s.summary != reconstructed { return false; }
    var gates := CanonicalGates(reconstructed, r.policy);
    return s.gates == gates;
  }

  // ---- The schedule ----

  ghost predicate WarmupOk(r: Report, i: nat)
    requires i < |r.out.warmups| && i < |r.plan.concurrencyStages|
  {
    var w := r.out.warmups[i];
    && ValidWarmup(w, r.plan.concurrencyStages[i], r.plan.warmupRequestsPerWorker)
    && w.status == (if WarmupAbort(w, r.policy.abortErrorPercent).Some? then Aborted else Complete)
  }

  ghost predicate StageOk(r: Report, i: nat)
    requires i < |r.out.stages| && i < |r.plan.concurrencyStages|
  {
    ValidStage(r.out.stages[i], r.plan.concurrencyStages[i], r)
  }

  ghost predicate WarmupsOk(r: Report, n: nat)
    requires n <= |r.out.warmups| && n <= |r.plan.concurrencyStages|
  {
    forall i: nat :: i < n ==> WarmupOk(r, i)
  }

  ghost predicate StagesOk(r: Report, n: nat)
    requires n <= |r.out.stages| && n <= |r.plan.concurrencyStages|
  {
    forall i: nat :: i < n ==> StageOk(r, i)
  }

  ghost predicate RowsOk(r: Report, w: nat, s: nat)
    requires w <= |r.out.warmups| && w <= |r.plan.concurrencyStages|
    requires s <= |r.out.stages| && s <= |r.plan.concurrencyStages|
  {
    WarmupsOk(r, w) && StagesOk(r, s)
  }

  /** A schedule is accepted iff its phases are a run of the ladder over the plan, every row is what
      its evidence re-derives, and the status says whether there was a reason to stop. */
  ghost predicate ValidSchedule(r: Report) {
    && IsLadder(|r.plan.concurrencyStages|, r.out, r.policy.abortErrorPercent)
    && RowsOk(r, |r.out.warmups|, |r.out.stages|)
    && r.status == (if r.out.abortReason.Some? then RunAborted else RunComplete)
  }

  lemma {:induction false} ReachesFurther(n: nat, out: Outcome, position: nat, abortErrorPercent: real)
    requires IsLadder(n, out, abortErrorPercent) && position < n
    requires NoAbort(out.warmups, out.stages, position, abortErrorPercent)
    ensures |out.warmups| > position
    ensures WarmupAbort(out.warmups[position], abortErrorPercent).None? ==> |out.stages| > position
    ensures WarmupAbort(out.warmups[position], abortErrorPercent).Some? ==>
      |out.warmups| == position + 1 && |out.stages| == position && out.abortReason == WarmupAbort(out.warmups[position], abortErrorPercent)
    ensures WarmupAbort(out.warmups[position], abortErrorPercent).None? && StageAbort(out.stages[position].summary, abortErrorPercent).Some? ==>
      |out.warmups| == position + 1 == |out.stages| && out.abortReason == StageAbort(out.stages[position].summary, abortErrorPercent)
  {
  }

  /** What an accepted schedule must show at a position that no earlier phase stopped short of. */
  lemma {:induction false} ScheduleAt(r: Report, position: nat)
    requires position < |r.plan.concurrencyStages| && ValidSchedule(r)
    requires NoAbort(r.out.warmups, r.out.stages, position, r.policy.abortErrorPercent)
    ensures |r.out.warmups| > position && WarmupOk(r, position)
    ensures WarmupAbort(r.out.warmups[position], r.policy.abortErrorPercent).Some? ==> StopsAfter(r, position + 1, position)
    ensures WarmupAbort(r.out.warmups[position], r.policy.abortErrorPercent).None? ==>
      |r.out.stages| > position && StageOk(r, position)
      && (StageAbort(r.out.stages[position].summary, r.policy.abortErrorPercent).Some? ==> StopsAfter(r, position + 1, position + 1))
  {
    ReachesFurther(|r.plan.concurrencyStages|, r.out, position, r.policy.abortErrorPercent);
  }

  /** The report ends with these many rows and says why. */
  ghost predicate StopsAfter(r: Report, w: nat, s: nat) {
    && |r.out.warmups| == w && |r.out.stages| == s && w > 0 && w - 1 <= s <= w
    && r.status == RunAborted && r.out.abortReason.Some?
    && r.out.abortReason == (if s < w then WarmupAbort(r.out.warmups[s], r.policy.abortErrorPercent)
                             else StageAbort(r.out.stages[s - 1].summary, r.policy.abortErrorPercent))
  }

  lemma {:induction false} StoppedInWarmup(r: Report, position: nat)
    requires position < |r.plan.concurrencyStages| && StopsAfter(r, position + 1, position)
    requires NoAbort(r.out.warmups, r.out.stages, position, r.policy.abortErrorPercent)
    requires RowsOk(r, position, position) && WarmupOk(r, position)
    ensures ValidSchedule(r)
  {
  }

  lemma {:induction false} StoppedInStage(r: Report, position: nat)
    requires position < |r.plan.concurrencyStages| && StopsAfter(r, position + 1, position + 1)
    requires NoAbort(r.out.warmups, r.out.stages, position, r.policy.abortErrorPercent)
    requires WarmupAbort(r.out.warmups[position], r.policy.abortErrorPercent).None?
    requires RowsOk(r, position, position) && WarmupOk(r, position) && StageOk(r, position)
    ensures ValidSchedule(r)
  {
    OneMoreRow(r, position);
    LadderStops(|r.plan.concurrencyStages|, r.out, position, r.policy.abortErrorPercent);
  }

  lemma {:induction false} LadderStops(n: nat, out: Outcome, position: nat, abortErrorPercent: real)
    requires position < n && |out.warmups| == position + 1 == |out.stages| && NoAbort(out.warmups, out.stages, position, abortErrorPercent)
    requires WarmupAbort(out.warmups[position], abortErrorPercent).None? && out.abortReason.Some?
    requires out.abortReason == StageAbort(out.stages[position].summary, abortErrorPercent)
    ensures IsLadder(n, out, abortErrorPercent)
  {
  }

  ghost predicate RunsThrough(r: Report, n: nat) {
    |r.out.warmups| == n == |r.out.stages| && r.status == RunComplete && r.out.abortReason.None?
  }

  lemma {:induction false} NothingStopped(r: Report)
    requires var n := |r.plan.concurrencyStages|;
      n > 0 && NoAbort(r.out.warmups, r.out.stages, n, r.policy.abortErrorPercent) && RowsOk(r, n, n)
    ensures ValidSchedule(r) <==> RunsThrough(r, |r.plan.concurrencyStages|)
  {
  }

  lemma {:induction false} OneMoreRow(r: Report, position: nat)
    requires position < |r.out.warmups| && position < |r.out.stages| && position < |r.plan.concurrencyStages|
    requires RowsOk(r, position, position) && WarmupOk(r, position) && StageOk(r, position)
    ensures RowsOk(r, position + 1, position + 1)
  {
  }

  /** What one turn of the loop over the plan finds. */
  datatype Turn = Wrong | Terminal(reason: AbortReason) | Onwards

  ghost function WarmupTurn(r: Report, position: nat): Turn
    requires position < |r.plan.concurrencyStages|
  {
    if position >= |r.out.warmups| || !WarmupOk(r, position) then Wrong
    else match WarmupAbort(r.out.warmups[position], r.policy.abortErrorPercent)
      case Some(reason) =>
        if |r.out.warmups| == position + 1 && |r.out.stages| == position then Terminal(reason) else Wrong
      case None => Onwards
  }

  ghost function StageTurn(r: Report, position: nat): Turn
    requires position < |r.plan.concurrencyStages|
  {
    if position >= |r.out.stages| || !StageOk(r, position) then Wrong
    else match StageAbort(r.out.stages[position].summary, r.policy.abortErrorPercent)
      case Some(reason) =>
        if |r.out.warmups| == position + 1 && |r.out.stages| == position + 1 then Terminal(reason) else Wrong
      case None => Onwards
  }

  method ValidateReachedWarmup(r: Report, position: nat) returns (turn: Turn)
    requires position < |r.plan.concurrencyStages|
    ensures turn == WarmupTurn(r, position)
  {
    if position >= |r.out.warmups| { return Wrong; }
    var warmup := r.out.warmups[position];
    if !ValidWarmup(warmup, r.plan.concurrencyStages[position], r.plan.warmupRequestsPerWorker) { return Wrong; }
    var reason := WarmupAbort(warmup, r.policy.abortErrorPercent);
    if reason.Some? {
      if warmup.status != Aborted || |r.out.warmups| != position + 1 || |r.out.stages| != position { return Wrong; }
      return Terminal(reason.value);
    }
    return if warmup.status != Complete then Wrong else Onwards;
  }

  method ValidateReachedStage(r: Report, position: nat) returns (turn: Turn)
    requires position < |r.plan.concurrencyStages| && r.plan.requestsPerWorker > 0
    ensures turn == StageTurn(r, position)
  {
    if position >= |r.out.stages| { return Wrong; }
    var stage := r.out.stages[position];
    var valid := ValidateSavedStage(stage, r.plan.concurrencyStages[position], r);
    if !valid { return Wrong; }
    var reason := StageAbort(stage.summary, r.policy.abortErrorPercent);
    if reason.None? { return Onwards; }
    return if |r.out.warmups| != position + 1 || |r.out.stages| != position + 1 then Wrong else Terminal(reason.value);
  }

  /** The ghost state of the loop at a position: nothing stopped and nothing was wrong before it. */
  ghost predicate FineUpTo(r: Report, position: nat) {
    && position <= |r.plan.concurrencyStages|
    && NoAbort(r.out.warmups, r.out.stages, position, r.policy.abortErrorPercent) && RowsOk(r, position, position)
  }

  lemma {:induction false} WarmupTurnMeans(r: Report, position: nat)
    requires position < |r.plan.concurrencyStages| && FineUpTo(r, position)
    ensures WarmupTurn(r, position).Wrong? ==> !ValidSchedule(r)
    ensures WarmupTurn(r, position).Terminal? ==>
      (ValidSchedule(r) <==> r.status == RunAborted && r.out.abortReason == Some(WarmupTurn(r, position).reason))
  {
    if ValidSchedule(r) { ScheduleAt(r, position); }
    if WarmupTurn(r, position).Terminal? && StopsAfter(r, position + 1, position) { StoppedInWarmup(r, position); }
  }

  lemma {:induction false} WrongStage(r: Report, position: nat)
    requires position < |r.plan.concurrencyStages| && FineUpTo(r, position) && WarmupTurn(r, position).Onwards?
    requires StageTurn(r, position).Wrong?
    ensures !ValidSchedule(r)
  {
    if ValidSchedule(r) { ScheduleAt(r, position); }
  }

  lemma {:induction false} TerminalStage(r: Report, position: nat)
    requires position < |r.plan.concurrencyStages| && FineUpTo(r, position) && WarmupTurn(r, position).Onwards?
    requires StageTurn(r, position).Terminal?
    ensures ValidSchedule(r) <==> r.status == RunAborted && r.out.abortReason == Some(StageTurn(r, position).reason)
  {
    if ValidSchedule(r) {
      ScheduleAt(r, position);
    } else if StopsAfter(r, position + 1, position + 1) {
      StoppedInStage(r, position);
    }
  }

  lemma {:induction false} FurtherStage(r: Report, position: nat)
    requires position < |r.plan.concurrencyStages| && FineUpTo(r, position) && WarmupTurn(r, position).Onwards?
    requires StageTurn(r, position).Onwards?
    ensures FineUpTo(r, position + 1)
  {
    OneMoreRow(r, position);
  }

  /** The loop over the plan accepts exactly the ladders whose rows their evidence re-derives. */
  method ValidateSavedSchedule(r: Report) returns (valid: bool)
    requires r.plan.concurrencyStages != [] && r.plan.requestsPerWorker > 0
    ensures valid == ValidSchedule(r)
  {
    var n := |r.plan.concurrencyStages|;
    for position: nat := 0 to n
      invariant FineUpTo(r, position)
    {
      WarmupTurnMeans(r, position);
      var turn := ValidateReachedWarmup(r, position);
      if turn.Onwards? {
        turn := ValidateReachedStage(r, position);
        match turn {
          case Wrong => WrongStage(r, position);
          case Terminal(_) => TerminalStage(r, position);
          case Onwards => FurtherStage(r, position);
        }
      }
      if turn.Wrong? { return false; }
      if turn.Terminal? { return r.status == RunAborted && r.out.abortReason == Some(turn.reason); }
    }
    NothingStopped(r);
    return |r.out.warmups| == n && |r.out.stages| == n && r.status == RunComplete && r.out.abortReason.None?;
  }

  // ---- The whole report ----

  function WarmupTime(warmups: seq<Warmup>): nat {
    if warmups == [] then 0 else WarmupTime(warmups[..|warmups| - 1]) + warmups[|warmups| - 1].durationNs
  }

  function StageTime(stages: seq<Stage>): nat {
    if stages == [] then 0 else StageTime(stages[..|stages| - 1]) + stages[|stages| - 1].durationNs
  }

  /** Time the phases took together. */
  function PhaseTime(out: Outcome): nat { WarmupTime(out.warmups) + StageTime(out.stages) }

  /** The version, the identity and the fixed parts. */
  predicate ValidHeader(r: Report, web: Web) {
    && r.version == REPORT_VERSION && ValidWorkloadId(r.workloadId) && ValidTarget(r.url, r.model, web)
    && r.nonclaims == NONCLAIMS
  }

  /** Everything the report tells of the run itself. */
  ghost predicate ValidEvidence(r: Report) {
    && ValidSavedPlan(r.plan) && ValidSavedPolicy(r.policy, r.stream)
    && ValidDuration(r.durationNs, r.durationMs)
    && ValidSchedule(r)
    && PhaseTime(r.out) <= r.durationNs
    && r.assessment == AssessmentOf(r.out.stages, r.policy)
    && (r.verification.requested.Some? ==> r.verification.requested.value in r.plan.concurrencyStages)
    && r.verification == Verify(r.verification.requested, r.out.stages)
  }

  ghost predicate ValidReport(r: Report, web: Web) { ValidHeader(r, web) && ValidEvidence(r) }

  /** The fold over the phase durations. The sum of at most sixteen 64-bit durations fits the 128
      bits it is taken in. */
  method SumPhases(out: Outcome) returns (total: nat)
    ensures total == PhaseTime(out)
  {
    total := 0;
    for i := 0 to |out.warmups|
      invariant total == WarmupTime(out.warmups[..i])
    {
      assert out.warmups[..i + 1][..i] == out.warmups[..i];
      total := total + out.warmups[i].durationNs;
    }
    assert out.warmups[..|out.warmups|] == out.warmups;
    for i := 0 to |out.stages|
      invariant total == WarmupTime(out.warmups) + StageTime(out.stages[..i])
    {
      assert out.stages[..i + 1][..i] == out.stages[..i];
      total := total + out.stages[i].durationNs;
    }
    assert out.stages[..|out.stages|] == out.stages;
  }

  method ValidateReportSemantics(r: Report, web: Web) returns (valid: bool)
    ensures valid == ValidReport(r, web)
  {
    if r.version != REPORT_VERSION || !ValidWorkloadId(r.workloadId) || !ValidTarget(r.url, r.model, web) { return false; }
    if !ValidSavedPlan(r.plan) || !ValidSavedPolicy(r.policy, r.stream) || r.nonclaims != NONCLAIMS { return false; }
    if r.durationNs == 0 || r.durationMs != r.durationNs / 1_000_000 { return false; }
    var scheduleValid := ValidateSavedSchedule(r);
    if !scheduleValid { return false; }
    var phases := SumPhases(r.out);
    if r.durationNs < phases { return false; }
    var assessed := Assess(r.out.stages, r.policy);
    if r.assessment != assessed { return false; }
    if r.verification.requested.Some? && r.verification.requested.value !in r.plan.concurrencyStages { return false; }
    return r.verification == Verify(r.verification.requested, r.out.stages);
  }
}
