/** Which benchmark options are admitted, and the plan and policy an admitted run records. Checked
    64-bit arithmetic is written out. */
module Admission {
  import opened Common
  import A = Attempts

  const MAX_STAGES: nat := 8
  const MAX_CONCURRENCY: nat := 64
  const MAX_WARMUP_REQUESTS_PER_WORKER: nat := 10
  const MAX_REQUESTS_PER_WORKER: nat := 100
  const MAX_ATTEMPTS: nat := 10_000
  const MAX_COMPLETION_TOKENS: nat := 65_536
  const MAX_REQUESTED_COMPLETION_TOKENS: nat := 1_000_000
  const MAX_PROMPT_BYTES: nat := 0x10_0000
  const MAX_EXPECTATION_BYTES: nat := 0x1_0000
  const MAX_IDENTITY_BYTES: nat := 0x1_0000
  const MAX_API_KEY_BYTES: nat := 0x1_0000
  const MAX_WORKLOAD_ID_BYTES: nat := 128
  const MAX_RESPONSE_BYTES: nat := 0x80_0000
  const MAX_TOTAL_PROMPT_BYTES: nat := 0x400_0000
  const MAX_TOTAL_RESPONSE_LIMIT_BYTES: nat := 0x8000_0000
  const MAX_AGGREGATE_MEMORY_BYTES: nat := 0x3000_0000
  const RETAINED_ATTEMPT_BUDGET_BYTES: nat := 1_024
  const WORKER_FIXED_MEMORY_BYTES: nat := 0x10_0000
  const MAX_REQUEST_TIMEOUT: nat := 300_000_000_000
  const MAX_PLANNED_DURATION: nat := 1_800_000_000_000
  const MINIMUM_LATENCY_SAMPLES: nat := 20
  const SIGNAL_MAX_MARGINAL_SCALING_EFFICIENCY_PERCENT: real := 5.0
  const SIGNAL_MIN_P95_LATENCY_INFLATION_PERCENT: real := 20.0
  const U32_MAX: nat := 0xFFFF_FFFF

  datatype Thresholds = Thresholds(
    maxErrorPercent: real, maxP95Ttft: Option<nat>, maxP95E2e: Option<nat>,
    minSuccessfulRequestsPerSecond: Option<real>, minCompletionTokenGoodputPerSecond: Option<real>,
    abortErrorPercent: real)

  datatype Options = Options(
    baseUrl: string, model: string, workloadId: string, apiKey: Option<string>, prompt: string, expectation: Option<string>,
    concurrencyStages: seq<nat>, warmupRequestsPerWorker: nat, requestsPerWorker: nat, maxTokens: nat,
    timeout: nat, maxBodyBytes: nat, stream: bool, allowInsecureHttp: bool, verifyConcurrency: Option<nat>, thresholds: Thresholds)

  datatype Plan = Plan(
    concurrencyStages: seq<nat>, warmupRequestsPerWorker: nat, requestsPerWorker: nat, plannedAttempts: nat,
    maxTokens: nat, timeoutNs: nat, timeoutMs: nat, responseLimitBytes: nat)

  datatype Policy = Policy(
    maxErrorPercent: real, maxP95TtftMs: Option<real>, maxP95E2eMs: Option<real>,
    minSuccessfulRequestsPerSecond: Option<real>, minCompletionTokenGoodputPerSecond: Option<real>,
    abortErrorPercent: real, minimumLatencySamples: nat,
    signalMaxMarginalScalingEfficiencyPercent: real, signalMinP95LatencyInflationPercent: real,
    expectationConfigured: bool)

  // ---- Checked 64-bit arithmetic ----

  function CheckedAdd(a: Option<nat>, b: nat): Option<nat> {
    if a.Some? && a.value + b <= U64_MAX then Some(a.value + b) else None
  }

  function CheckedPlus(a: Option<nat>, b: Option<nat>): Option<nat> { if b.Some? then CheckedAdd(a, b.value) else None }

  function CheckedMul(a: Option<nat>, b: nat): Option<nat> {
    if a.Some? && a.value * b <= U64_MAX then Some(a.value * b) else None
  }

  /** The fold over the stages, `None` as soon as a partial sum overflows. */
  function CheckedSum(stages: seq<nat>): Option<nat> {
    if stages == [] then Some(0) else CheckedAdd(CheckedSum(stages[..|stages| - 1]), stages[|stages| - 1])
  }

  function Total(stages: seq<nat>): nat {
    if stages == [] then 0 else Total(stages[..|stages| - 1]) + stages[|stages| - 1]
  }

  predicate AtMost(value: Option<nat>, limit: nat) { value.Some? && value.value <= limit }

  // ---- Admission ----

  predicate StrictlyIncreasing(stages: seq<nat>) { forall i | 0 <= i < |stages| - 1 :: stages[i] < stages[i + 1] }

  predicate StagesInBounds(stages: seq<nat>) { forall i | 0 <= i < |stages| :: 1 <= stages[i] <= MAX_CONCURRENCY }

  predicate ValidStages(stages: seq<nat>) {
    1 <= |stages| <= MAX_STAGES && stages[0] == 1 && StagesInBounds(stages) && StrictlyIncreasing(stages)
  }

  predicate ValidSchedule(o: Options) {
    && ValidStages(o.concurrencyStages)
    && 1 <= o.warmupRequestsPerWorker <= MAX_WARMUP_REQUESTS_PER_WORKER
    && 1 <= o.requestsPerWorker <= MAX_REQUESTS_PER_WORKER
    && (o.verifyConcurrency.Some? ==> o.verifyConcurrency.value in o.concurrencyStages)
  }

  predicate ValidIdentity(s: string) { Trim(s) != [] && Utf8Len(s) <= MAX_IDENTITY_BYTES }

  predicate IsAsciiAlphanumeric(c: char) { '0' <= c <= '9' || 'A' <= c <= 'Z' || 'a' <= c <= 'z' }

  predicate ValidWorkloadId(s: string) {
    && 1 <= Utf8Len(s) <= MAX_WORKLOAD_ID_BYTES
    && forall i | 0 <= i < |s| ::
         IsAsciiAlphanumeric(s[i]) || (i > 0 && (s[i] == '.' || s[i] == '_' || s[i] == ':' || s[i] == '/' || s[i] == '-'))
  }

  /** Bytes of an optional text. */
  function Bytes(s: Option<string>): nat { if s.Some? then Utf8Len(s.value) else 0 }

  predicate Bounded(s: Option<string>, most: nat) { s.Some? ==> 1 <= Utf8Len(s.value) <= most }

  predicate ValidRequest(o: Options) {
    && ValidIdentity(o.baseUrl) && ValidIdentity(o.model) && ValidWorkloadId(o.workloadId)
    && Bounded(o.apiKey, MAX_API_KEY_BYTES) && Bounded(o.expectation, MAX_EXPECTATION_BYTES)
    && 1 <= Utf8Len(o.prompt) <= MAX_PROMPT_BYTES && 1 <= o.maxTokens <= MAX_COMPLETION_TOKENS
    && 1 <= o.timeout <= MAX_REQUEST_TIMEOUT && 1 <= o.maxBodyBytes <= MAX_RESPONSE_BYTES
  }

  predicate LatencyThreshold(t: Option<nat>) { t.None? || 1 <= t.value <= MAX_REQUEST_TIMEOUT }

  predicate GoodputThreshold(t: Option<real>) { t.None? || t.value >= 0.0 }

  predicate ValidThresholds(o: Options) {
    var t := o.thresholds;
    && 0.0 <= t.maxErrorPercent < 100.0 && t.maxErrorPercent < t.abortErrorPercent <= 100.0
    && LatencyThreshold(t.maxP95Ttft) && LatencyThreshold(t.maxP95E2e)
    && GoodputThreshold(t.minSuccessfulRequestsPerSecond) && GoodputThreshold(t.minCompletionTokenGoodputPerSecond)
    && (o.stream || t.maxP95Ttft.None?)
  }

  // ---- The memory estimate ----

  /** Encoding makes at most six bytes of one, plus an envelope; twice that for the buffer's growth. */
  function RequestBodyBudget(model: nat, prompt: nat): Option<nat> {
    CheckedMul(CheckedAdd(CheckedMul(CheckedAdd(Some(model), prompt), 6), 512), 2)
  }

  /** The peak of one worker: its request, what parsing a response can hold, and the matcher. */
  function WorkerBudget(body: nat, limit: nat, expectation: nat, stream: bool): Option<nat> {
    var response := CheckedMul(CheckedAdd(Some(limit), 1), 64 + if stream then 4 else 2);
    var matcher := CheckedMul(Some(expectation), 8 + 1);
    CheckedAdd(CheckedPlus(CheckedPlus(Some(body), response), matcher), WORKER_FIXED_MEMORY_BYTES)
  }

  function InputBudget(o: Options): Option<nat> {
    CheckedAdd(CheckedAdd(CheckedAdd(CheckedAdd(CheckedAdd(Some(Utf8Len(o.baseUrl)),
      Utf8Len(o.model)), Utf8Len(o.workloadId)), Utf8Len(o.prompt)), Bytes(o.expectation)), Bytes(o.apiKey))
  }

  function PersistentBudget(input: Option<nat>, body: nat, planned: nat): Option<nat> {
    CheckedPlus(CheckedAdd(CheckedMul(input, 3), body), CheckedMul(Some(planned), RETAINED_ATTEMPT_BUDGET_BYTES))
  }

  function MaxConcurrency(stages: seq<nat>): nat { if stages == [] then 0 else stages[|stages| - 1] }

  /** The estimated working set; `None` when a checked operation overflows. */
  function MemoryEstimate(o: Options, planned: nat): Option<nat> {
    match RequestBodyBudget(Utf8Len(o.model), Utf8Len(o.prompt))
    case None => None
    case Some(body) =>
      match WorkerBudget(body, o.maxBodyBytes, Bytes(o.expectation), o.stream)
      case None => None
      case Some(worker) =>
        CheckedPlus(CheckedMul(Some(MaxConcurrency(o.concurrencyStages)), worker), PersistentBudget(InputBudget(o), body, planned))
  }

  /** The number of planned attempts of admitted options. */
  function Validate(o: Options): Option<nat> {
    if !ValidRequest(o) || !ValidSchedule(o) || !ValidThresholds(o) then None
    else
      var perConcurrency := CheckedAdd(Some(o.warmupRequestsPerWorker), o.requestsPerWorker);
      var sum := CheckedSum(o.concurrencyStages);
      if sum.None? || perConcurrency.None? then None
      else
        var planned := CheckedMul(sum, perConcurrency.value);
        var waves := CheckedMul(Some(|o.concurrencyStages|), perConcurrency.value);
        if !AtMost(planned, MAX_ATTEMPTS)
           || !AtMost(CheckedMul(planned, o.maxTokens), MAX_REQUESTED_COMPLETION_TOKENS)
           || !AtMost(CheckedMul(planned, Utf8Len(o.prompt)), MAX_TOTAL_PROMPT_BYTES)
           || !AtMost(CheckedMul(planned, o.maxBodyBytes), MAX_TOTAL_RESPONSE_LIMIT_BYTES)
           || !AtMost(waves, U32_MAX) || o.timeout * waves.value > MAX_PLANNED_DURATION
           || !AtMost(MemoryEstimate(o, planned.value), MAX_AGGREGATE_MEMORY_BYTES)
        then None else planned
  }

  /** Attempts per unit of concurrency, warmup and measured. */
  function PerConcurrency(o: Options): nat { o.warmupRequestsPerWorker + o.requestsPerWorker }

  function PlannedAttempts(o: Options): nat { Total(o.concurrencyStages) * PerConcurrency(o) }

  lemma {:induction false} SumIsChecked(stages: seq<nat>)
    ensures CheckedSum(stages) == if Total(stages) <= U64_MAX then Some(Total(stages)) else None
  {
    if stages != [] { SumIsChecked(stages[..|stages| - 1]); }
  }

  lemma {:induction false} TotalBounded(stages: seq<nat>)
    requires StagesInBounds(stages)
    ensures |stages| <= Total(stages) <= MAX_CONCURRENCY * |stages|
  {
    if stages != [] { TotalBounded(stages[..|stages| - 1]); }
  }

  lemma {:induction false} CheckedAtMost(a: nat, b: nat, limit: nat)
    requires limit <= U64_MAX
    ensures AtMost(CheckedMul(Some(a), b), limit) <==> a * b <= limit
  {
  }

  lemma {:induction false} ProductBound(a: nat, b: nat, x: nat, y: nat)
    requires a <= x && b <= y
    ensures a * b <= x * y
  {
    assert a * b <= a * y <= x * y;
  }

  // ---- The same estimate in plain arithmetic ----

  function RequestBody(model: nat, prompt: nat): nat { ((model + prompt) * 6 + 512) * 2 }

  function WorkerBytes(body: nat, limit: nat, expectation: nat, stream: bool): nat {
    body + (limit + 1) * (if stream then 68 else 66) + expectation * 9 + WORKER_FIXED_MEMORY_BYTES
  }

  function InputBytes(o: Options): nat {
    Utf8Len(o.baseUrl) + Utf8Len(o.model) + Utf8Len(o.workloadId) + Utf8Len(o.prompt) + Bytes(o.expectation) + Bytes(o.apiKey)
  }

  function WorkingSet(o: Options, planned: nat): nat {
    var body := RequestBody(Utf8Len(o.model), Utf8Len(o.prompt));
    MaxConcurrency(o.concurrencyStages) * WorkerBytes(body, o.maxBodyBytes, Bytes(o.expectation), o.stream)
    + InputBytes(o) * 3 + body + planned * RETAINED_ATTEMPT_BUDGET_BYTES
  }

  lemma {:induction false} BodyIsExact(model: nat, prompt: nat)
    requires model <= MAX_IDENTITY_BYTES && prompt <= MAX_PROMPT_BYTES
    ensures RequestBodyBudget(model, prompt) == Some(RequestBody(model, prompt)) && RequestBody(model, prompt) <= 0x100_0000
  {
  }

  lemma {:induction false} WorkerIsExact(body: nat, limit: nat, expectation: nat, stream: bool)
    requires body <= 0x100_0000 && limit <= MAX_RESPONSE_BYTES && expectation <= MAX_EXPECTATION_BYTES
    ensures WorkerBudget(body, limit, expectation, stream) == Some(WorkerBytes(body, limit, expectation, stream))
    ensures WorkerBytes(body, limit, expectation, stream) <= 0x4000_0000
  {
  }

  lemma {:induction false} InputIsExact(o: Options)
    requires ValidRequest(o)
    ensures InputBudget(o) == Some(InputBytes(o)) && InputBytes(o) <= 0x20_0000
  {
  }

  lemma {:induction false} PersistentIsExact(input: nat, body: nat, planned: nat)
    requires input <= 0x20_0000 && body <= 0x100_0000 && planned <= MAX_ATTEMPTS
    ensures PersistentBudget(Some(input), body, planned) == Some(input * 3 + body + planned * RETAINED_ATTEMPT_BUDGET_BYTES)
    ensures input * 3 + body + planned * RETAINED_ATTEMPT_BUDGET_BYTES <= 0x1_0000_0000
  {
  }

  lemma {:induction false} SumIsExact(concurrency: nat, worker: nat, persistent: nat)
    requires concurrency <= MAX_CONCURRENCY && worker <= 0x4000_0000 && persistent <= 0x1_0000_0000
    ensures CheckedPlus(CheckedMul(Some(concurrency), worker), Some(persistent)) == Some(concurrency * worker + persistent)
  {
    ProductBound(concurrency, worker, MAX_CONCURRENCY, 0x4000_0000);
  }

  /** Within the other limits no step of the estimate overflows. */
  lemma {:induction false} MemoryIsExact(o: Options, planned: nat)
    requires ValidRequest(o) && StagesInBounds(o.concurrencyStages) && planned <= MAX_ATTEMPTS
    ensures MemoryEstimate(o, planned) == Some(WorkingSet(o, planned))
  {
    var body := RequestBody(Utf8Len(o.model), Utf8Len(o.prompt));
    BodyIsExact(Utf8Len(o.model), Utf8Len(o.prompt));
    WorkerIsExact(body, o.maxBodyBytes, Bytes(o.expectation), o.stream);
    InputIsExact(o);
    PersistentIsExact(InputBytes(o), body, planned);
    SumIsExact(MaxConcurrency(o.concurrencyStages), WorkerBytes(body, o.maxBodyBytes, Bytes(o.expectation), o.stream),
               InputBytes(o) * 3 + body + planned * RETAINED_ATTEMPT_BUDGET_BYTES);
  }

  /** Admission in plain arithmetic: no checked operation overflows before its limit is reached. */
  predicate WithinBudgets(o: Options) {
    && PlannedAttempts(o) <= MAX_ATTEMPTS
    && PlannedAttempts(o) * o.maxTokens <= MAX_REQUESTED_COMPLETION_TOKENS
    && PlannedAttempts(o) * Utf8Len(o.prompt) <= MAX_TOTAL_PROMPT_BYTES
    && PlannedAttempts(o) * o.maxBodyBytes <= MAX_TOTAL_RESPONSE_LIMIT_BYTES
    && o.timeout * (|o.concurrencyStages| * PerConcurrency(o)) <= MAX_PLANNED_DURATION
    && WorkingSet(o, PlannedAttempts(o)) <= MAX_AGGREGATE_MEMORY_BYTES
  }

  lemma {:induction false} AdmittedIff(o: Options)
    ensures Validate(o).Some? <==> ValidRequest(o) && ValidSchedule(o) && ValidThresholds(o) && WithinBudgets(o)
    ensures Validate(o).Some? ==> Validate(o).value == PlannedAttempts(o)
  {
    if ValidRequest(o) && ValidSchedule(o) && ValidThresholds(o) {
      var sum, per, n := Total(o.concurrencyStages), PerConcurrency(o), |o.concurrencyStages|;
      SumIsChecked(o.concurrencyStages);
      TotalBounded(o.concurrencyStages);
      ProductBound(sum, per, MAX_CONCURRENCY * MAX_STAGES, MAX_REQUESTS_PER_WORKER + MAX_WARMUP_REQUESTS_PER_WORKER);
      ProductBound(n, per, MAX_STAGES, MAX_REQUESTS_PER_WORKER + MAX_WARMUP_REQUESTS_PER_WORKER);
      CheckedAtMost(sum, per, MAX_ATTEMPTS);
      CheckedAtMost(sum * per, o.maxTokens, MAX_REQUESTED_COMPLETION_TOKENS);
      CheckedAtMost(sum * per, Utf8Len(o.prompt), MAX_TOTAL_PROMPT_BYTES);
      CheckedAtMost(sum * per, o.maxBodyBytes, MAX_TOTAL_RESPONSE_LIMIT_BYTES);
      if sum * per <= MAX_ATTEMPTS { MemoryIsExact(o, sum * per); }
    }
  }

  // ---- The recorded plan and policy ----

  function MillisecondsCeil(ns: nat): nat { Min((ns + 999_999) / 1_000_000, U64_MAX) }

  function ElapsedNanos(ns: nat): nat { Min(ns, U64_MAX) }

  function ElapsedMillis(ns: nat): nat { Min(ns / 1_000_000, U64_MAX) }

  function PlanOf(o: Options, planned: nat): Plan {
    Plan(o.concurrencyStages, o.warmupRequestsPerWorker, o.requestsPerWorker, if planned <= U32_MAX then planned else U32_MAX,
         o.maxTokens, ElapsedNanos(o.timeout), MillisecondsCeil(o.timeout), o.maxBodyBytes)
  }

  function InMilliseconds(t: Option<nat>): Option<real> {
    match t case None => None case Some(ns) => Some(A.Milliseconds(ns))
  }

  function PolicyOf(o: Options): Policy {
    var t := o.thresholds;
    Policy(t.maxErrorPercent, InMilliseconds(t.maxP95Ttft), InMilliseconds(t.maxP95E2e),
           t.minSuccessfulRequestsPerSecond, t.minCompletionTokenGoodputPerSecond,
           t.abortErrorPercent, MINIMUM_LATENCY_SAMPLES, SIGNAL_MAX_MARGINAL_SCALING_EFFICIENCY_PERCENT,
           SIGNAL_MIN_P95_LATENCY_INFLATION_PERCENT, o.expectation.Some?)
  }

  /** The test of a plan read from a saved report. */
  predicate ValidSavedPlan(p: Plan) {
    && ValidStages(p.concurrencyStages)
    && 1 <= p.warmupRequestsPerWorker <= MAX_WARMUP_REQUESTS_PER_WORKER
    && 1 <= p.requestsPerWorker <= MAX_REQUESTS_PER_WORKER
    && 1 <= p.maxTokens <= MAX_COMPLETION_TOKENS
    && 1 <= p.timeoutNs <= MAX_REQUEST_TIMEOUT && p.timeoutMs == (p.timeoutNs + 999_999) / 1_000_000
    && 1 <= p.responseLimitBytes <= MAX_RESPONSE_BYTES
    && ValidSavedTotals(p, CheckedSum(p.concurrencyStages), CheckedAdd(Some(p.warmupRequestsPerWorker), p.requestsPerWorker))
  }

  predicate ValidSavedTotals(p: Plan, sum: Option<nat>, perConcurrency: Option<nat>) {
    sum.Some? && perConcurrency.Some? &&
    var attempts := CheckedMul(sum, perConcurrency.value);
    var waves := CheckedMul(Some(|p.concurrencyStages|), perConcurrency.value);
    && attempts.Some? && attempts.value != 0 && attempts.value <= MAX_ATTEMPTS && p.plannedAttempts == attempts.value
    && AtMost(CheckedMul(attempts, p.maxTokens), MAX_REQUESTED_COMPLETION_TOKENS)
    && AtMost(CheckedMul(attempts, p.responseLimitBytes), MAX_TOTAL_RESPONSE_LIMIT_BYTES)
    && waves.Some? && p.timeoutNs * waves.value <= MAX_PLANNED_DURATION
  }

  predicate ValidSavedPolicy(p: Policy, stream: bool) {
    && 0.0 <= p.maxErrorPercent < 100.0 && p.maxErrorPercent < p.abortErrorPercent <= 100.0
    && p.minimumLatencySamples == MINIMUM_LATENCY_SAMPLES
    && p.signalMaxMarginalScalingEfficiencyPercent == SIGNAL_MAX_MARGINAL_SCALING_EFFICIENCY_PERCENT
    && p.signalMinP95LatencyInflationPercent == SIGNAL_MIN_P95_LATENCY_INFLATION_PERCENT
    && (p.maxP95TtftMs.Some? ==> 0.0 < p.maxP95TtftMs.value <= 300_000.0)
    && (p.maxP95E2eMs.Some? ==> 0.0 < p.maxP95E2eMs.value <= 300_000.0)
    && GoodputThreshold(p.minSuccessfulRequestsPerSecond) && GoodputThreshold(p.minCompletionTokenGoodputPerSecond)
    && (stream || p.maxP95TtftMs.None?)
  }

  lemma {:induction false} PositiveProduct(a: nat, b: nat)
    requires a > 0 && b > 0
    ensures a * b > 0
  {
  }

  /** The plan an admitted run records passes the test of saved plans. */
  lemma {:induction false} AdmittedPlanIsValid(o: Options)
    requires Validate(o).Some?
    ensures ValidSavedPlan(PlanOf(o, Validate(o).value))
  {
    AdmittedIff(o);
    SumIsChecked(o.concurrencyStages);
    TotalBounded(o.concurrencyStages);
    PositiveProduct(Total(o.concurrencyStages), PerConcurrency(o));
    var p := PlanOf(o, Validate(o).value);
    assert p.timeoutNs == o.timeout && p.plannedAttempts == PlannedAttempts(o);
  }

  /** The texts of the options that a report names. */
  datatype Names = Names(baseUrl: string, model: string, workloadId: string)

  predicate ValidNames(n: Names) { ValidIdentity(n.baseUrl) && ValidIdentity(n.model) && ValidWorkloadId(n.workloadId) }

  function NamesOf(o: Options): Names { Names(o.baseUrl, o.model, o.workloadId) }

  /** Options with such names, the settings of a plan, and texts of one byte besides. */
  function OptionsWith(p: Plan, n: Names, stream: bool, expectation: bool, verify: Option<nat>, t: Thresholds): Options {
    Options(n.baseUrl, n.model, n.workloadId, None, "x", if expectation then Some("x") else None,
            p.concurrencyStages, p.warmupRequestsPerWorker, p.requestsPerWorker, p.maxTokens,
            p.timeoutNs, p.responseLimitBytes, stream, true, verify, t)
  }

  /** The smallest options with such names that would record a plan. */
  function OptionsFor(p: Plan, n: Names): Options {
    OptionsWith(p, n, false, false, None, Thresholds(1.0, None, None, None, None, 50.0))
  }

  /** The working set no run with this plan and names stays below. */
  function LeastWorkingSet(p: Plan, n: Names): nat { WorkingSet(OptionsFor(p, n), p.plannedAttempts) }

  ghost predicate Records(o: Options, p: Plan) { Validate(o).Some? && PlanOf(o, Validate(o).value) == p }

  lemma {:induction false} OneByte()
    ensures Utf8Len("x") == 1 && Trim("x") == "x"
  {
    assert "x"[1..] == [];
    assert TrimStart("x") == "x" && TrimEnd("x") == "x";
  }

  /** For such options only the memory estimate is left to be looked at. */
  lemma {:induction false} SmallAdmittedIff(p: Plan, n: Names, stream: bool, expectation: bool, verify: Option<nat>, t: Thresholds)
    requires ValidSavedPlan(p) && ValidNames(n) && ValidThresholds(OptionsWith(p, n, stream, expectation, verify, t))
    requires verify.Some? ==> verify.value in p.concurrencyStages
    ensures var o := OptionsWith(p, n, stream, expectation, verify, t);
      Records(o, p) <==> WorkingSet(o, p.plannedAttempts) <= MAX_AGGREGATE_MEMORY_BYTES
  {
    var o := OptionsWith(p, n, stream, expectation, verify, t);
    OneByte();
    AdmittedIff(o);
    SumIsChecked(o.concurrencyStages);
    TotalBounded(o.concurrencyStages);
    assert CheckedMul(Some(Total(o.concurrencyStages)), PerConcurrency(o)) == Some(PlannedAttempts(o));
  }

  lemma {:induction false} WorkerGrows(
    least: nat, model: nat, prompt: nat, limit: nat, leastExpectation: nat, expectation: nat, small: bool, stream: bool, concurrency: nat)
    requires model >= least && prompt >= 1 && leastExpectation <= expectation && (small ==> stream)
    ensures concurrency * WorkerBytes(RequestBody(least, 1), limit, leastExpectation, small)
         <= concurrency * WorkerBytes(RequestBody(model, prompt), limit, expectation, stream)
  {
    ProductBound(concurrency, WorkerBytes(RequestBody(least, 1), limit, leastExpectation, small),
                 concurrency, WorkerBytes(RequestBody(model, prompt), limit, expectation, stream));
  }

  lemma {:induction false} NotEmptyIfVisible(s: string)
    requires Trim(s) != []
    ensures Utf8Len(s) >= 1
  {
    assert Trim([]) == [];
    Utf8LenAtLeastChars(s);
  }

  /** No name is longer than that of the options. */
  predicate NoLonger(n: Names, o: Options) {
    Utf8Len(n.baseUrl) <= Utf8Len(o.baseUrl) && Utf8Len(n.model) <= Utf8Len(o.model) && Utf8Len(n.workloadId) <= Utf8Len(o.workloadId)
  }

  /** Other options that record the plan under names at least as long need at least as much memory. */
  lemma {:induction false} SmallIsLeast(o: Options, p: Plan, n: Names, stream: bool, expectation: bool, verify: Option<nat>, t: Thresholds)
    requires Records(o, p) && NoLonger(n, o) && (stream ==> o.stream) && (expectation ==> o.expectation.Some?)
    ensures WorkingSet(OptionsWith(p, n, stream, expectation, verify, t), p.plannedAttempts)
         <= WorkingSet(o, p.plannedAttempts) <= MAX_AGGREGATE_MEMORY_BYTES
  {
    AdmittedIff(o);
    OneByte();
    WorkerGrows(Utf8Len(n.model), Utf8Len(o.model), Utf8Len(o.prompt), o.maxBodyBytes, if expectation then 1 else 0, Bytes(o.expectation),
                stream, o.stream, MaxConcurrency(o.concurrencyStages));
  }

  /** A saved plan that passes is the plan of some admitted options with these names iff its least
      working set under them is within the memory limit: the test of saved reports does not repeat
      that part of admission. */
  lemma {:induction false} PlanRecordedAsIff(p: Plan, n: Names)
    requires ValidSavedPlan(p) && ValidNames(n)
    ensures (exists o: Options :: Records(o, p) && NamesOf(o) == n) <==> LeastWorkingSet(p, n) <= MAX_AGGREGATE_MEMORY_BYTES
  {
    var t := Thresholds(1.0, None, None, None, None, 50.0);
    SmallAdmittedIff(p, n, false, false, None, t);
    assert NamesOf(OptionsFor(p, n)) == n;
    if o: Options :| Records(o, p) && NamesOf(o) == n { SmallIsLeast(o, p, n, false, false, None, t); }
  }

  const SHORT: Names := Names("x", "x", "x")

  lemma {:induction false} ShortIsShortest(o: Options)
    requires Validate(o).Some?
    ensures ValidNames(SHORT) && NoLonger(SHORT, o)
  {
    AdmittedIff(o);
    ShortIsValid();
    NotEmptyIfVisible(o.baseUrl);
    NotEmptyIfVisible(o.model);
  }

  lemma {:induction false} ShortIsValid()
    ensures ValidNames(SHORT) && Utf8Len(SHORT.baseUrl) == Utf8Len(SHORT.model) == Utf8Len(SHORT.workloadId) == 1
  {
    OneByte();
  }

  /** And of any admitted options iff that holds for the shortest names. */
  lemma {:induction false} PlanRecordedIff(p: Plan)
    requires ValidSavedPlan(p)
    ensures (exists o: Options :: Records(o, p)) <==> LeastWorkingSet(p, SHORT) <= MAX_AGGREGATE_MEMORY_BYTES
  {
    ShortIsValid();
    PlanRecordedAsIff(p, SHORT);
    if o: Options :| Records(o, p) {
      ShortIsShortest(o);
      SmallIsLeast(o, p, SHORT, false, false, None, Thresholds(1.0, None, None, None, None, 50.0));
    }
  }

  /** One request each of one and of 64 workers, for warmup and measurement. */
  function WidePlan(limit: nat): Plan { Plan([1, 64], 1, 1, 130, 1, 1_000_000, 1, limit) }

  lemma {:induction false} WidePlanPasses(limit: nat)
    requires 1 <= limit <= MAX_RESPONSE_BYTES
    ensures ValidSavedPlan(WidePlan(limit))
  {
    var stages := [1, 64];
    assert stages[..1] == [1] && [1][..0] == [];
    assert CheckedSum([1]) == Some(1) && CheckedSum(stages) == Some(65);
    assert ValidStages(stages);
    assert ValidSavedTotals(WidePlan(limit), Some(65), Some(2));
  }

  lemma {:induction false} WidePlanNeeds(limit: nat, n: Names)
    requires 1 <= limit <= MAX_RESPONSE_BYTES
    ensures LeastWorkingSet(WidePlan(limit), n)
         == 64 * (((Utf8Len(n.model) + 1) * 6 + 512) * 2 + (limit + 1) * 66 + 0x10_0000)
          + (Utf8Len(n.baseUrl) + Utf8Len(n.model) + Utf8Len(n.workloadId) + 1) * 3
          + ((Utf8Len(n.model) + 1) * 6 + 512) * 2 + 130 * 1_024
  {
    OneByte();
  }

  /** It does happen: 64 workers with 8 MiB responses pass the test, and no run records that plan. */
  lemma {:induction false} UnrecordedPlanPasses()
    ensures ValidSavedPlan(WidePlan(MAX_RESPONSE_BYTES)) && !exists o: Options :: Records(o, WidePlan(MAX_RESPONSE_BYTES))
  {
    WidePlanPasses(MAX_RESPONSE_BYTES);
    WidePlanNeeds(MAX_RESPONSE_BYTES, SHORT);
    PlanRecordedIff(WidePlan(MAX_RESPONSE_BYTES));
  }

  /** And the names decide: there is a plan that some options record, but none with a model name of 64 KiB. */
  lemma {:induction false} LongModelUnrecorded()
    ensures ValidSavedPlan(WidePlan(174_714)) && exists o: Options :: Records(o, WidePlan(174_714))
    ensures forall o: Options :: Records(o, WidePlan(174_714)) ==> Utf8Len(o.model) < MAX_IDENTITY_BYTES
  {
    var p := WidePlan(174_714);
    WidePlanPasses(174_714);
    ShortIsValid();
    WidePlanNeeds(174_714, SHORT);
    PlanRecordedIff(p);
    forall o: Options | Records(o, p) ensures Utf8Len(o.model) < MAX_IDENTITY_BYTES {
      WidePlanNeeds(174_714, NamesOf(o));
      SmallIsLeast(o, p, NamesOf(o), false, false, None, Thresholds(1.0, None, None, None, None, 50.0));
    }
  }

  lemma {:induction false} AdmittedPolicyIsValid(o: Options)
    requires Validate(o).Some?
    ensures ValidSavedPolicy(PolicyOf(o), o.stream)
  {
    AdmittedIff(o);
    assert A.Milliseconds(MAX_REQUEST_TIMEOUT) == 300_000.0;
    if o.thresholds.maxP95Ttft.Some? { A.MillisecondsOrdered(o.thresholds.maxP95Ttft.value, MAX_REQUEST_TIMEOUT); }
    if o.thresholds.maxP95E2e.Some? { A.MillisecondsOrdered(o.thresholds.maxP95E2e.value, MAX_REQUEST_TIMEOUT); }
  }

  /** The request counts of every phase of an admitted run fit 32 bits, so the checked
      multiplications of the run never fail. */
  lemma {:induction false} PhaseCountsFit(o: Options, i: nat)
    requires Validate(o).Some? && i < |o.concurrencyStages|
    ensures 1 <= o.concurrencyStages[i] * o.warmupRequestsPerWorker <= U32_MAX
    ensures 1 <= o.concurrencyStages[i] * o.requestsPerWorker <= U32_MAX
    ensures o.concurrencyStages[i] * o.requestsPerWorker <= MAX_CONCURRENCY * MAX_REQUESTS_PER_WORKER
  {
    AdmittedIff(o);
    var c := o.concurrencyStages[i];
    PositiveProduct(c, o.warmupRequestsPerWorker);
    PositiveProduct(c, o.requestsPerWorker);
    ProductBound(c, o.warmupRequestsPerWorker, MAX_CONCURRENCY, MAX_WARMUP_REQUESTS_PER_WORKER);
    ProductBound(c, o.requestsPerWorker, MAX_CONCURRENCY, MAX_REQUESTS_PER_WORKER);
  }

  // ---- The defaults ----

  /** The default settings, for a server, a model and texts. */
  function Defaults(baseUrl: string, model: string, workloadId: string, prompt: string, expectation: string): Options {
    Options(baseUrl, model, workloadId, None, prompt, Some(expectation), [1], 2, 20, 128, 10_000_000_000, 0x2_0000, true, false, None,
            Thresholds(1.0, None, None, None, None, 50.0))
  }

  /** The working set of 22 attempts of one worker with such texts. */
  lemma {:induction false} DefaultWorkingSet(identity: nat, prompt: nat, expectation: nat)
    requires identity <= MAX_IDENTITY_BYTES && prompt <= 64 && expectation <= 64
    ensures WorkerBytes(RequestBody(identity, prompt), 0x2_0000, expectation, true) <= 0x200_0000
    ensures RequestBody(identity, prompt) <= 0x100_0000
  {
  }

  lemma {:induction false} DefaultBudget(o: Options)
    requires o.concurrencyStages == [1] && o.maxBodyBytes == 0x2_0000 && o.stream && ValidRequest(o)
    requires Utf8Len(o.prompt) <= 64 && Bytes(o.expectation) <= 64 && o.apiKey.None?
    ensures WorkingSet(o, 22) <= MAX_AGGREGATE_MEMORY_BYTES
  {
    assert MaxConcurrency(o.concurrencyStages) == 1;
    DefaultWorkingSet(Utf8Len(o.model), Utf8Len(o.prompt), Bytes(o.expectation));
    InputIsExact(o);
  }

  lemma {:induction false} DefaultPlan(o: Options)
    requires o.concurrencyStages == [1] && o.warmupRequestsPerWorker == 2 && o.requestsPerWorker == 20
    ensures PlannedAttempts(o) == 22 && PerConcurrency(o) == 22
  {
    assert [1][..0] == [] && Total([]) == 0;
    assert Total(o.concurrencyStages) == 1;
  }

  /** With short texts the default settings are admitted for any server and model, and plan 22 attempts. */
  lemma {:induction false} DefaultsAreAdmitted(baseUrl: string, model: string, workloadId: string, prompt: string, expectation: string)
    requires ValidIdentity(baseUrl) && ValidIdentity(model) && ValidWorkloadId(workloadId)
    requires 1 <= Utf8Len(prompt) <= 64 && 1 <= Utf8Len(expectation) <= 64
    ensures Validate(Defaults(baseUrl, model, workloadId, prompt, expectation)) == Some(22)
  {
    var o := Defaults(baseUrl, model, workloadId, prompt, expectation);
    assert ValidRequest(o) && ValidSchedule(o) && ValidThresholds(o);
    DefaultPlan(o);
    DefaultBudget(o);
    AdmittedIff(o);
  }
}
