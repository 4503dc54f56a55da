/** Comparing two saved saturation reports stage by stage under explicit gates. */
module SaturationCompare {
  import opened Common
  import A = Admission
  import G = StageSummary
  import L = Ladder
  import S = SavedReport
  import opened Target

  const MIN_SAMPLES: nat := 20

  datatype Policy = Policy(
    maxP95TtftRegressionPercent: Option<real>, maxP95E2eRegressionPercent: Option<real>,
    minRpsRatio: Option<real>, minGoodputRatio: Option<real>, maxErrorIncreasePoints: Option<real>,
    minimumStageSamples: nat)

  predicate NonNegative(t: Option<real>) { t.None? || t.value >= 0.0 }

  predicate ValidPolicy(p: Policy) {
    && p.minimumStageSamples == MIN_SAMPLES
    && NonNegative(p.maxP95TtftRegressionPercent) && NonNegative(p.maxP95E2eRegressionPercent)
    && NonNegative(p.minRpsRatio) && NonNegative(p.minGoodputRatio)
    && NonNegative(p.maxErrorIncreasePoints) && (p.maxErrorIncreasePoints.Some? ==> p.maxErrorIncreasePoints.value <= 100.0)
  }

  // ---- Compatibility ----

  datatype Field =
    | BaselineIntegrity | CandidateIntegrity | ReportVersion | TimestampOrder | BaselineStatus | CandidateStatus
    | WorkloadId | Model | Route | Stream | ConcurrencyStages | WarmupRequestsPerWorker | RequestsPerWorker
    | MaxTokens | TimeoutNanoseconds | ResponseLimitBytes | Schedule | PolicyField

  datatype CheckReason =
    InvalidReportEvidence | UnsupportedVersion | CandidatePredatesBaseline | RunDidNotComplete | ValuesDiffer | InvalidIdentity

  datatype Check = Check(field: Field, passed: bool, reason: Option<CheckReason>)

  function Condition(field: Field, passed: bool, failed: CheckReason): Check {
    Check(field, passed, if passed then None else Some(failed))
  }

  function IdentityCondition(field: Field, valid: bool, equal: bool): Check {
    Condition(field, valid && equal, if valid then ValuesDiffer else InvalidIdentity)
  }

  function Equality(field: Field, equal: bool): Check { Condition(field, equal, ValuesDiffer) }

  function RunChecks(b: S.Report, c: S.Report, baselineIntact: bool, candidateIntact: bool): seq<Check> {
    [Condition(BaselineIntegrity, baselineIntact, InvalidReportEvidence),
     Condition(CandidateIntegrity, candidateIntact, InvalidReportEvidence),
     Condition(ReportVersion, b.version == S.REPORT_VERSION && c.version == S.REPORT_VERSION && b.version == c.version, UnsupportedVersion),
     Condition(TimestampOrder, c.startedAt >= b.startedAt, CandidatePredatesBaseline),
     Condition(BaselineStatus, b.status == S.RunComplete, RunDidNotComplete),
     Condition(CandidateStatus, c.status == S.RunComplete, RunDidNotComplete)]
  }

  function IdentityChecks(b: S.Report, c: S.Report): seq<Check> {
    [IdentityCondition(WorkloadId, A.ValidWorkloadId(b.workloadId) && A.ValidWorkloadId(c.workloadId), b.workloadId == c.workloadId),
     IdentityCondition(Model, Trim(b.model) != [] && Trim(c.model) != [], b.model == c.model),
     Equality(Route, true),
     Equality(Stream, b.stream == c.stream)]
  }

  function PlanChecks(p: A.Plan, q: A.Plan): seq<Check> {
    [Equality(ConcurrencyStages, p.concurrencyStages == q.concurrencyStages),
     Equality(WarmupRequestsPerWorker, p.warmupRequestsPerWorker == q.warmupRequestsPerWorker),
     Equality(RequestsPerWorker, p.requestsPerWorker == q.requestsPerWorker),
     Equality(MaxTokens, p.maxTokens == q.maxTokens),
     Equality(TimeoutNanoseconds, p.timeoutNs == q.timeoutNs),
     Equality(ResponseLimitBytes, p.responseLimitBytes == q.responseLimitBytes),
     Equality(Schedule, true)]
  }

  /** The eighteen checks. Route and schedule have one value each, so their checks always pass. */
  function CompatibilityChecks(b: S.Report, c: S.Report, baselineIntact: bool, candidateIntact: bool): seq<Check> {
    RunChecks(b, c, baselineIntact, candidateIntact) + IdentityChecks(b, c) + PlanChecks(b.plan, c.plan)
    + [Equality(PolicyField, b.policy == c.policy)]
  }

  predicate AllPassed(checks: seq<Check>) { forall i | 0 <= i < |checks| :: checks[i].passed }

  // ---- One stage against its counterpart ----

  datatype Evidence = Evidence(
    attempted: nat, succeeded: nat, errorPercent: real, rps: real,
    ttftSamples: nat, p95TtftMs: Option<real>, e2eSamples: nat, p95E2eMs: Option<real>,
    tokenSamples: nat, usageComplete: bool, goodput: Option<real>)

  function EvidenceOf(s: L.Stage): Evidence {
    var m := s.summary;
    Evidence(
      m.attempted, m.succeeded, m.errorPercent, m.successfulRps,
      match m.ttftMs { case None => 0 case Some(d) => G.Clip(d.samples) },
      match m.ttftMs { case None => None case Some(d) => Some(d.p95) },
      match m.e2eMs { case None => 0 case Some(d) => G.Clip(d.samples) },
      match m.e2eMs { case None => None case Some(d) => Some(d.p95) },
      m.completionTokenSamples, m.completionUsageComplete, m.completionGoodput)
  }

  datatype PolicyStatus = PolicyPass | PolicyFail | PolicyNotEvaluable

  function StagePolicyStatus(s: L.Stage): PolicyStatus {
    if s.summary.attempted < MIN_SAMPLES then PolicyNotEvaluable
    else if G.SomeGate(s.gates, G.Fail) then PolicyFail
    else if G.SomeGate(s.gates, G.NotEvaluable) then PolicyNotEvaluable
    else PolicyPass
  }

  datatype Verdict = Pass | Regression | NotEvaluable

  function ComparePolicyStatus(b: PolicyStatus, c: PolicyStatus): Verdict {
    if b == PolicyPass && c == PolicyPass then Pass
    else if b == PolicyPass && c == PolicyFail then Regression
    else NotEvaluable
  }

  datatype GateKind = TtftRegression | E2eRegression | RpsRatio | GoodputRatio | ErrorIncrease
  datatype GateStatus = GatePass | GateFail | GateNotEvaluable

  datatype GateReason =
    | BaselineNoSuccess | CandidateNoSuccess | BaselineUnavailable | CandidateUnavailable
    | BaselineTooFew | CandidateTooFew | BaselineZero | BaselineUsageIncomplete | CandidateUsageIncomplete

  datatype Gate = Gate(kind: GateKind, observed: Option<real>, threshold: real, status: GateStatus, reason: Option<GateReason>)

  function Abs(x: real): real { if x < 0.0 then -x else x }

  function MaxReal(a: real, b: real): real { if a <= b then b else a }

  function Tolerance(observed: real, threshold: real): real {
    MaxReal(MaxReal(Abs(observed), Abs(threshold)), 1.0) * 0.000_000_001
  }

  predicate NotAbove(observed: real, threshold: real) { observed <= threshold + Tolerance(observed, threshold) }

  predicate AtLeast(observed: real, threshold: real) { observed + Tolerance(observed, threshold) >= threshold }

  /** What is compared: nothing, for a reason, or an observed value. */
  datatype Observation = Unavailable(reason: GateReason) | Observed(value: real)

  function EvaluatedGate(kind: GateKind, o: Observation, threshold: real, passed: bool): Gate {
    match o
    case Unavailable(reason) => Gate(kind, None, threshold, GateNotEvaluable, Some(reason))
    case Observed(value) => Gate(kind, Some(value), threshold, if passed then GatePass else GateFail, None)
  }

  function LatencyRegression(b: Evidence, c: Evidence, before: Option<real>, after: Option<real>, beforeSamples: nat, afterSamples: nat): Observation {
    if b.succeeded == 0 then Unavailable(BaselineNoSuccess)
    else if c.succeeded == 0 then Unavailable(CandidateNoSuccess)
    else if before.None? then Unavailable(BaselineUnavailable)
    else if after.None? then Unavailable(CandidateUnavailable)
    else if beforeSamples < MIN_SAMPLES then Unavailable(BaselineTooFew)
    else if afterSamples < MIN_SAMPLES then Unavailable(CandidateTooFew)
    else if before.value <= 0.0 then Unavailable(BaselineZero)
    else Observed((after.value / before.value - 1.0) * 100.0)
  }

  function RpsRatioOf(b: Evidence, c: Evidence): Observation {
    if b.attempted < MIN_SAMPLES then Unavailable(BaselineTooFew)
    else if c.attempted < MIN_SAMPLES then Unavailable(CandidateTooFew)
    else if b.succeeded == 0 then Unavailable(BaselineNoSuccess)
    else if b.rps <= 0.0 then Unavailable(BaselineZero)
    else Observed(c.rps / b.rps)
  }

  function GoodputRatioOf(b: Evidence, c: Evidence): Observation {
    if b.succeeded == 0 then Unavailable(BaselineNoSuccess)
    else if c.succeeded == 0 then Unavailable(CandidateNoSuccess)
    else if !b.usageComplete then Unavailable(BaselineUsageIncomplete)
    else if !c.usageComplete then Unavailable(CandidateUsageIncomplete)
    else if b.tokenSamples < MIN_SAMPLES then Unavailable(BaselineTooFew)
    else if c.tokenSamples < MIN_SAMPLES then Unavailable(CandidateTooFew)
    else if b.goodput.None? then Unavailable(BaselineUnavailable)
    else if c.goodput.None? then Unavailable(CandidateUnavailable)
    else if b.goodput.value <= 0.0 then Unavailable(BaselineZero)
    else Observed(c.goodput.value / b.goodput.value)
  }

  function ErrorIncreaseOf(b: Evidence, c: Evidence): Observation {
    if b.attempted < MIN_SAMPLES then Unavailable(BaselineTooFew)
    else if c.attempted < MIN_SAMPLES then Unavailable(CandidateTooFew)
    else Observed(c.errorPercent - b.errorPercent)
  }

  function Ceiling(kind: GateKind, o: Observation, threshold: Option<real>): seq<Gate> {
    if threshold.None? then []
    else [EvaluatedGate(kind, o, threshold.value, o.Observed? && NotAbove(o.value, threshold.value))]
  }

  function Floor(kind: GateKind, o: Observation, threshold: Option<real>): seq<Gate> {
    if threshold.None? then []
    else [EvaluatedGate(kind, o, threshold.value, o.Observed? && AtLeast(o.value, threshold.value))]
  }

  function GatesOf(b: Evidence, c: Evidence, p: Policy): seq<Gate> {
    Ceiling(TtftRegression, LatencyRegression(b, c, b.p95TtftMs, c.p95TtftMs, b.ttftSamples, c.ttftSamples), p.maxP95TtftRegressionPercent)
    + Ceiling(E2eRegression, LatencyRegression(b, c, b.p95E2eMs, c.p95E2eMs, b.e2eSamples, c.e2eSamples), p.maxP95E2eRegressionPercent)
    + Floor(RpsRatio, RpsRatioOf(b, c), p.minRpsRatio)
    + Floor(GoodputRatio, GoodputRatioOf(b, c), p.minGoodputRatio)
    + Ceiling(ErrorIncrease, ErrorIncreaseOf(b, c), p.maxErrorIncreasePoints)
  }

  datatype Row = Row(concurrency: nat, candidateConcurrency: nat, baseline: Evidence, candidate: Evidence, policyVerdict: Verdict, gates: seq<Gate>)

  function CompareStage(b: L.Stage, c: L.Stage, p: Policy): Row {
    Row(b.concurrency, c.concurrency, EvidenceOf(b), EvidenceOf(c),
        ComparePolicyStatus(StagePolicyStatus(b), StagePolicyStatus(c)), GatesOf(EvidenceOf(b), EvidenceOf(c), p))
  }

  /** The two lists walked together until the shorter one ends. */
  function CompareStages(b: seq<L.Stage>, c: seq<L.Stage>, p: Policy): (rows: seq<Row>)
    ensures |rows| == Min(|b|, |c|)
    ensures forall i :: 0 <= i < |rows| ==> rows[i] == CompareStage(b[i], c[i], p)
  {
    if b == [] || c == [] then [] else [CompareStage(b[0], c[0], p)] + CompareStages(b[1..], c[1..], p)
  }

  predicate HasStatus(gates: seq<Gate>, status: GateStatus) { exists i | 0 <= i < |gates| :: gates[i].status == status }

  predicate RowRegresses(r: Row) { r.policyVerdict == Regression || HasStatus(r.gates, GateFail) }

  predicate RowUndecided(r: Row) { r.policyVerdict == NotEvaluable || HasStatus(r.gates, GateNotEvaluable) }

  function StatusOf(compatible: bool, rows: seq<Row>): Verdict {
    if !compatible then NotEvaluable
    else if exists i | 0 <= i < |rows| :: RowRegresses(rows[i]) then Regression
    else if exists i | 0 <= i < |rows| :: RowUndecided(rows[i]) then NotEvaluable
    else Pass
  }

  datatype Comparison = Comparison(compatible: bool, checks: seq<Check>, rows: seq<Row>, status: Verdict)

  /** `None` for a policy outside its bounds. */
  ghost function Compare(b: S.Report, c: S.Report, p: Policy, web: Web): Option<Comparison> {
    if !ValidPolicy(p) then None
    else
      var checks := CompatibilityChecks(b, c, S.ValidReport(b, web), S.ValidReport(c, web));
      var rows := if AllPassed(checks) then CompareStages(b.out.stages, c.out.stages, p) else [];
      Some(Comparison(AllPassed(checks), checks, rows, StatusOf(AllPassed(checks), rows)))
  }

  // ---- No stage is skipped ----

  ghost predicate SameTest(b: S.Report, c: S.Report, web: Web) {
    && S.ValidReport(b, web) && S.ValidReport(c, web) && b.status == S.RunComplete && c.status == S.RunComplete
    && b.startedAt <= c.startedAt && b.workloadId == c.workloadId && b.model == c.model && b.stream == c.stream
    && b.plan == c.plan && b.policy == c.policy
  }

  lemma {:induction false} AllPassedAppend(a: seq<Check>, b: seq<Check>)
    ensures AllPassed(a + b) <==> AllPassed(a) && AllPassed(b)
  {
    if AllPassed(a + b) {
      forall i | 0 <= i < |a| ensures a[i].passed { assert (a + b)[i].passed; }
      forall i | 0 <= i < |b| ensures b[i].passed { assert (a + b)[|a| + i].passed; }
    }
  }

  lemma {:induction false} RunChecksPass(b: S.Report, c: S.Report, baselineIntact: bool, candidateIntact: bool)
    ensures AllPassed(RunChecks(b, c, baselineIntact, candidateIntact)) <==>
      && baselineIntact && candidateIntact && b.version == c.version == S.REPORT_VERSION && b.startedAt <= c.startedAt
      && b.status == S.RunComplete && c.status == S.RunComplete
  {
    var checks := RunChecks(b, c, baselineIntact, candidateIntact);
    assert AllPassed(checks) ==> checks[0].passed && checks[1].passed && checks[2].passed && checks[3].passed && checks[4].passed && checks[5].passed;
  }

  lemma {:induction false} IdentityChecksPass(b: S.Report, c: S.Report)
    ensures AllPassed(IdentityChecks(b, c)) <==>
      && A.ValidWorkloadId(b.workloadId) && b.workloadId == c.workloadId
      && Trim(b.model) != [] && b.model == c.model && b.stream == c.stream
  {
    var checks := IdentityChecks(b, c);
    assert AllPassed(checks) ==> checks[0].passed && checks[1].passed && checks[2].passed && checks[3].passed;
  }

  lemma {:induction false} PlanChecksPass(p: A.Plan, q: A.Plan)
    requires A.ValidSavedPlan(p) && A.ValidSavedPlan(q)
    ensures AllPassed(PlanChecks(p, q)) <==> p == q
  {
    var checks := PlanChecks(p, q);
    assert AllPassed(checks) ==> checks[0].passed && checks[1].passed && checks[2].passed && checks[3].passed && checks[4].passed && checks[5].passed;
    if AllPassed(checks) { SamePlan(p, q); }
  }

  /** The eighteen checks pass iff both reports are intact and complete, tell of the same test, and are
      given in order. */
  lemma {:induction false} CompatibleIff(b: S.Report, c: S.Report, web: Web)
    ensures AllPassed(CompatibilityChecks(b, c, S.ValidReport(b, web), S.ValidReport(c, web))) <==> SameTest(b, c, web)
  {
    ChecksPass(b, c, S.ValidReport(b, web), S.ValidReport(c, web));
    if S.ValidReport(b, web) && S.ValidReport(c, web) { PlanChecksPass(b.plan, c.plan); }
  }

  lemma {:induction false} ChecksPass(b: S.Report, c: S.Report, baselineIntact: bool, candidateIntact: bool)
    ensures AllPassed(CompatibilityChecks(b, c, baselineIntact, candidateIntact)) <==>
      && AllPassed(RunChecks(b, c, baselineIntact, candidateIntact)) && AllPassed(IdentityChecks(b, c))
      && AllPassed(PlanChecks(b.plan, c.plan)) && b.policy == c.policy
    ensures AllPassed(RunChecks(b, c, baselineIntact, candidateIntact)) <==>
      && baselineIntact && candidateIntact && b.version == c.version == S.REPORT_VERSION && b.startedAt <= c.startedAt
      && b.status == S.RunComplete && c.status == S.RunComplete
    ensures AllPassed(IdentityChecks(b, c)) <==>
      && A.ValidWorkloadId(b.workloadId) && b.workloadId == c.workloadId
      && Trim(b.model) != [] && b.model == c.model && b.stream == c.stream
  {
    var run, identity, plan := RunChecks(b, c, baselineIntact, candidateIntact), IdentityChecks(b, c), PlanChecks(b.plan, c.plan);
    var last := [Equality(PolicyField, b.policy == c.policy)];
    AllPassedAppend(run, identity);
    AllPassedAppend(run + identity, plan);
    AllPassedAppend(run + identity + plan, last);
    LastPasses(last[0]);
    RunChecksPass(b, c, baselineIntact, candidateIntact);
    IdentityChecksPass(b, c);
  }

  lemma {:induction false} LastPasses(check: Check)
    ensures AllPassed([check]) <==> check.passed
  {
    assert [check][0] == check;
  }

  /** The derived fields of a valid plan follow from the others. */
  lemma {:induction false} SamePlan(p: A.Plan, q: A.Plan)
    requires A.ValidSavedPlan(p) && A.ValidSavedPlan(q)
    requires p.concurrencyStages == q.concurrencyStages && p.warmupRequestsPerWorker == q.warmupRequestsPerWorker
    requires p.requestsPerWorker == q.requestsPerWorker && p.maxTokens == q.maxTokens
    requires p.timeoutNs == q.timeoutNs && p.responseLimitBytes == q.responseLimitBytes
    ensures p == q
  {
  }

  /** A complete, intact report has exactly one stage for every planned concurrency, in order. */
  lemma {:induction false} CompleteReportHasAllStages(r: S.Report)
    requires S.ValidEvidence(r) && r.status == S.RunComplete
    ensures |r.out.stages| == |r.plan.concurrencyStages|
    ensures forall i :: 0 <= i < |r.out.stages| ==> r.out.stages[i].concurrency == r.plan.concurrencyStages[i]
  {
    forall i: nat | i < |r.out.stages| ensures r.out.stages[i].concurrency == r.plan.concurrencyStages[i] {
      assert S.StageOk(r, i);
    }
  }

  /** Compatible reports are compared at every planned concurrency, each stage with the one of equal
      concurrency: walking the two lists together drops nothing. */
  lemma {:induction false} NoStageIsSkipped(b: S.Report, c: S.Report, p: Policy, web: Web)
    requires Compare(b, c, p, web).Some? && Compare(b, c, p, web).value.compatible
    ensures var rows := Compare(b, c, p, web).value.rows;
      && |rows| == |b.plan.concurrencyStages| == |b.out.stages| == |c.out.stages|
      && (forall i :: 0 <= i < |rows| ==>
            rows[i].concurrency == rows[i].candidateConcurrency == b.plan.concurrencyStages[i])
  {
    CompatibleIff(b, c, web);
    CompleteReportHasAllStages(b);
    CompleteReportHasAllStages(c);
  }

  // ---- Loosening a policy ----

  /** A ceiling raised or dropped. */
  predicate CeilingLooser(p: Option<real>, q: Option<real>) { q.None? || (p.Some? && p.value <= q.value) }

  /** A floor lowered or dropped. */
  predicate FloorLooser(p: Option<real>, q: Option<real>) { q.None? || (p.Some? && q.value <= p.value) }

  predicate Looser(p: Policy, q: Policy) {
    && CeilingLooser(p.maxP95TtftRegressionPercent, q.maxP95TtftRegressionPercent)
    && CeilingLooser(p.maxP95E2eRegressionPercent, q.maxP95E2eRegressionPercent)
    && FloorLooser(p.minRpsRatio, q.minRpsRatio) && FloorLooser(p.minGoodputRatio, q.minGoodputRatio)
    && CeilingLooser(p.maxErrorIncreasePoints, q.maxErrorIncreasePoints)
  }

  lemma {:induction false} CeilingMonotone(observed: real, t: real, u: real)
    requires 0.0 <= t <= u && NotAbove(observed, t)
    ensures NotAbove(observed, u)
  {
  }

  /** A lower floor has a smaller tolerance, but it falls by more than the tolerance does. */
  lemma {:induction false} FloorMonotone(observed: real, t: real, u: real)
    requires 0.0 <= u <= t && AtLeast(observed, t)
    ensures AtLeast(observed, u)
  {
  }

  lemma {:induction false} OneGate(gate: Gate, status: GateStatus)
    ensures HasStatus([gate], status) <==> gate.status == status
  {
    assert [gate][0] == gate;
  }

  /** A gate that may fail less often and be undecided no more often. */
  lemma {:induction false} OneGateLoosened(p: Gate, q: Gate)
    requires q.status == p.status || q.status == GatePass
    ensures Loosened([p], [q])
  {
    OneGate(p, GateFail);
    OneGate(q, GateFail);
    OneGate(p, GateNotEvaluable);
    OneGate(q, GateNotEvaluable);
  }

  lemma {:induction false} CeilingLoosened(kind: GateKind, o: Observation, p: Option<real>, q: Option<real>)
    requires NonNegative(p) && CeilingLooser(p, q)
    ensures Loosened(Ceiling(kind, o, p), Ceiling(kind, o, q))
  {
    if q.Some? {
      if o.Observed? && NotAbove(o.value, p.value) { CeilingMonotone(o.value, p.value, q.value); }
      OneGateLoosened(Ceiling(kind, o, p)[0], Ceiling(kind, o, q)[0]);
    }
  }

  lemma {:induction false} FloorLoosened(kind: GateKind, o: Observation, p: Option<real>, q: Option<real>)
    requires NonNegative(q) && FloorLooser(p, q)
    ensures Loosened(Floor(kind, o, p), Floor(kind, o, q))
  {
    if q.Some? {
      if o.Observed? && AtLeast(o.value, p.value) { FloorMonotone(o.value, p.value, q.value); }
      OneGateLoosened(Floor(kind, o, p)[0], Floor(kind, o, q)[0]);
    }
  }

  /** The loosened list of gates has no status that the other list lacks, except passing. */
  predicate Loosened(p: seq<Gate>, q: seq<Gate>) {
    (HasStatus(q, GateFail) ==> HasStatus(p, GateFail)) && (HasStatus(q, GateNotEvaluable) ==> HasStatus(p, GateNotEvaluable))
  }

  lemma {:induction false} StatusInAppend(a: seq<Gate>, b: seq<Gate>, status: GateStatus)
    ensures HasStatus(a + b, status) <==> HasStatus(a, status) || HasStatus(b, status)
  {
    if HasStatus(a, status) {
      var i :| 0 <= i < |a| && a[i].status == status;
      assert (a + b)[i].status == status;
    }
    if HasStatus(b, status) {
      var i :| 0 <= i < |b| && b[i].status == status;
      assert (a + b)[|a| + i].status == status;
    }
  }

  lemma {:induction false} LoosenedAppend(a: seq<Gate>, b: seq<Gate>, x: seq<Gate>, y: seq<Gate>)
    requires Loosened(a, x) && Loosened(b, y)
    ensures Loosened(a + b, x + y)
  {
    StatusInAppend(a, b, GateFail);
    StatusInAppend(a, b, GateNotEvaluable);
    StatusInAppend(x, y, GateFail);
    StatusInAppend(x, y, GateNotEvaluable);
  }

  lemma {:induction false} GatesLoosened(b: Evidence, c: Evidence, p: Policy, q: Policy)
    requires ValidPolicy(p) && ValidPolicy(q) && Looser(p, q)
    ensures Loosened(GatesOf(b, c, p), GatesOf(b, c, q))
  {
    var ttft := LatencyRegression(b, c, b.p95TtftMs, c.p95TtftMs, b.ttftSamples, c.ttftSamples);
    var e2e := LatencyRegression(b, c, b.p95E2eMs, c.p95E2eMs, b.e2eSamples, c.e2eSamples);
    var rps, goodput, errors := RpsRatioOf(b, c), GoodputRatioOf(b, c), ErrorIncreaseOf(b, c);
    CeilingLoosened(TtftRegression, ttft, p.maxP95TtftRegressionPercent, q.maxP95TtftRegressionPercent);
    CeilingLoosened(E2eRegression, e2e, p.maxP95E2eRegressionPercent, q.maxP95E2eRegressionPercent);
    FloorLoosened(RpsRatio, rps, p.minRpsRatio, q.minRpsRatio);
    FloorLoosened(GoodputRatio, goodput, p.minGoodputRatio, q.minGoodputRatio);
    CeilingLoosened(ErrorIncrease, errors, p.maxErrorIncreasePoints, q.maxErrorIncreasePoints);
    var p1, q1 := Ceiling(TtftRegression, ttft, p.maxP95TtftRegressionPercent), Ceiling(TtftRegression, ttft, q.maxP95TtftRegressionPercent);
    var p2, q2 := Ceiling(E2eRegression, e2e, p.maxP95E2eRegressionPercent), Ceiling(E2eRegression, e2e, q.maxP95E2eRegressionPercent);
    var p3, q3 := Floor(RpsRatio, rps, p.minRpsRatio), Floor(RpsRatio, rps, q.minRpsRatio);
    var p4, q4 := Floor(GoodputRatio, goodput, p.minGoodputRatio), Floor(GoodputRatio, goodput, q.minGoodputRatio);
    LoosenedAppend(p1, p2, q1, q2);
    LoosenedAppend(p1 + p2, p3, q1 + q2, q3);
    LoosenedAppend(p1 + p2 + p3, p4, q1 + q2 + q3, q4);
    LoosenedAppend(p1 + p2 + p3 + p4, Ceiling(ErrorIncrease, errors, p.maxErrorIncreasePoints),
                   q1 + q2 + q3 + q4, Ceiling(ErrorIncrease, errors, q.maxErrorIncreasePoints));
  }

  ghost predicate RowLoosened(r: Row, s: Row) { (RowRegresses(s) ==> RowRegresses(r)) && (RowUndecided(s) ==> RowUndecided(r)) }

  lemma {:induction false} RowsLoosened(b: L.Stage, c: L.Stage, p: Policy, q: Policy)
    requires ValidPolicy(p) && ValidPolicy(q) && Looser(p, q)
    ensures RowLoosened(CompareStage(b, c, p), CompareStage(b, c, q))
  {
    GatesLoosened(EvidenceOf(b), EvidenceOf(c), p, q);
  }

  lemma {:induction false} StatusLoosened(compatible: bool, r: seq<Row>, s: seq<Row>)
    requires |r| == |s| && forall i :: 0 <= i < |r| ==> RowLoosened(r[i], s[i])
    ensures StatusOf(compatible, r) == Pass ==> StatusOf(compatible, s) == Pass
    ensures StatusOf(compatible, s) == Regression ==> StatusOf(compatible, r) == Regression
  {
    if compatible {
      if StatusOf(compatible, s) == Regression {
        var i :| 0 <= i < |s| && RowRegresses(s[i]);
        assert RowLoosened(r[i], s[i]) && RowRegresses(r[i]);
      }
      if StatusOf(compatible, r) == Pass {
        forall i | 0 <= i < |s| ensures !RowRegresses(s[i]) && !RowUndecided(s[i]) {
          assert RowLoosened(r[i], s[i]) && !RowRegresses(r[i]) && !RowUndecided(r[i]);
        }
      }
    }
  }

  /** Raising ceilings, lowering floors or dropping gates never turns a pass into anything else, and
      never brings about a regression, the relative tolerance included. */
  lemma {:induction false} LooserPolicyKeepsPass(b: S.Report, c: S.Report, p: Policy, q: Policy, web: Web)
    requires ValidPolicy(p) && ValidPolicy(q) && Looser(p, q)
    ensures Compare(b, c, p, web).value.status == Pass ==> Compare(b, c, q, web).value.status == Pass
    ensures Compare(b, c, q, web).value.status == Regression ==> Compare(b, c, p, web).value.status == Regression
  {
    var x, y := b.out.stages, c.out.stages;
    var r, s := CompareStages(x, y, p), CompareStages(x, y, q);
    forall i | 0 <= i < |r| ensures RowLoosened(r[i], s[i]) { RowsLoosened(x[i], y[i], p, q); }
    var compatible := AllPassed(CompatibilityChecks(b, c, S.ValidReport(b, web), S.ValidReport(c, web)));
    StatusLoosened(compatible, r, s);
    StatusLoosened(compatible, [], []);
  }
}
