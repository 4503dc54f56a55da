/** What a phase of the benchmark is reduced to: failure counts, rates, token totals, distributions,
    gates and the rules that stop the ladder. */
module StageSummary {
  import opened Common
  import opened Attempts
  import opened Admission
  import D = Distribution

  // ---- Counting ----

  function CountStage(attempts: seq<Attempt>, stage: FailureStage): (n: nat)
    ensures n <= |attempts|
  {
    if attempts == [] then 0
    else CountStage(attempts[..|attempts| - 1], stage) + if attempts[|attempts| - 1].failureStage == Some(stage) then 1 else 0
  }

  function Succeeded(attempts: seq<Attempt>): (n: nat)
    ensures n <= |attempts|
  {
    if attempts == [] then 0
    else Succeeded(attempts[..|attempts| - 1]) + if attempts[|attempts| - 1].success then 1 else 0
  }

  function Clip(n: nat): nat { if n <= U32_MAX then n else U32_MAX }

  datatype Counts = Counts(transport: nat, http: nat, protocol: nat, emptyOutput: nat, expectation: nat)

  function CountsOf(attempts: seq<Attempt>): Counts {
    Counts(Clip(CountStage(attempts, Transport)), Clip(CountStage(attempts, Http)), Clip(CountStage(attempts, Protocol)),
           Clip(CountStage(attempts, EmptyOutput)), Clip(CountStage(attempts, Expectation)))
  }

  function Increment(counts: Counts, stage: FailureStage): Counts {
    match stage
    case Transport => counts.(transport := Clip(counts.transport + 1))
    case Http => counts.(http := Clip(counts.http + 1))
    case Protocol => counts.(protocol := Clip(counts.protocol + 1))
    case EmptyOutput => counts.(emptyOutput := Clip(counts.emptyOutput + 1))
    case Expectation => counts.(expectation := Clip(counts.expectation + 1))
  }

  method FromAttempts(attempts: seq<Attempt>) returns (counts: Counts)
    ensures counts == CountsOf(attempts)
  {
    counts := Counts(0, 0, 0, 0, 0);
    for i := 0 to |attempts|
      invariant counts == CountsOf(attempts[..i])
    {
      assert attempts[..i + 1][..i] == attempts[..i];
      match attempts[i].failureStage {
        case None =>
        case Some(stage) => counts := Increment(counts, stage);
      }
    }
    assert attempts[..|attempts|] == attempts;
  }

  function FailureTotal(c: Counts): Option<nat> {
    var total := c.transport + c.http + c.protocol + c.emptyOutput + c.expectation;
    if total <= U32_MAX then Some(total) else None
  }

  ghost predicate Consistent(attempts: seq<Attempt>) {
    forall i :: 0 <= i < |attempts| ==> (attempts[i].success <==> attempts[i].failureStage.None?)
  }

  lemma {:induction false} StagesAddUp(attempts: seq<Attempt>)
    requires Consistent(attempts)
    ensures CountStage(attempts, Transport) + CountStage(attempts, Http) + CountStage(attempts, Protocol)
          + CountStage(attempts, EmptyOutput) + CountStage(attempts, Expectation) == |attempts| - Succeeded(attempts)
  {
    if attempts != [] {
      StagesAddUp(attempts[..|attempts| - 1]);
      var last := attempts[|attempts| - 1];
      assert last.success <==> last.failureStage.None?;
      match last.failureStage { case None => case Some(Transport) => case Some(Http) => case Some(Protocol) => case Some(EmptyOutput) => case Some(Expectation) => }
    }
  }

  lemma {:induction false} ClippedTotal(counts: Counts, a: nat, b: nat, c: nat, d: nat, e: nat, n: nat)
    requires a + b + c + d + e == n <= U32_MAX
    requires counts == Counts(Clip(a), Clip(b), Clip(c), Clip(d), Clip(e))
    ensures FailureTotal(counts) == Some(n)
  {
  }

  /** The failure counts of a phase add up to its failures. */
  lemma {:induction false} CountsAddUp(attempts: seq<Attempt>)
    requires Consistent(attempts) && |attempts| <= U32_MAX
    ensures FailureTotal(CountsOf(attempts)) == Some(|attempts| - Succeeded(attempts))
  {
    StagesAddUp(attempts);
    ClippedTotal(CountsOf(attempts), CountStage(attempts, Transport), CountStage(attempts, Http), CountStage(attempts, Protocol),
                 CountStage(attempts, EmptyOutput), CountStage(attempts, Expectation), |attempts| - Succeeded(attempts));
  }

  function ErrorPercent(failed: nat, attempted: nat): real {
    if attempted == 0 then 0.0 else failed as real * 100.0 / attempted as real
  }

  // ---- Measured stages ----

  function Rate(total: nat, durationNs: nat): real {
    var seconds := durationNs as real / 1_000_000_000.0;
    if seconds > 0.0 then total as real / seconds else 0.0
  }

  /** The measurements that successful attempts carry. */
  function Measured(attempts: seq<Attempt>, pick: Attempt -> Option<real>): (r: seq<real>)
    ensures |r| <= |attempts|
  {
    if attempts == [] then []
    else
      var last := attempts[|attempts| - 1];
      Measured(attempts[..|attempts| - 1], pick) + if last.success && pick(last).Some? then [pick(last).value] else []
  }

  /** The token count a successful attempt contributes. */
  function Tokens(a: Attempt, pick: Attempt -> Option<nat>, most: nat): Option<nat> {
    if a.success then Within(pick(a), most) else None
  }

  function TokenSamples(attempts: seq<Attempt>, pick: Attempt -> Option<nat>, most: nat): (n: nat)
    ensures n <= |attempts|
  {
    if attempts == [] then 0
    else TokenSamples(attempts[..|attempts| - 1], pick, most) + if Tokens(attempts[|attempts| - 1], pick, most).Some? then 1 else 0
  }

  /** The checked sum of the token counts. */
  function CheckedTokens(attempts: seq<Attempt>, pick: Attempt -> Option<nat>, most: nat): Option<nat> {
    if attempts == [] then Some(0)
    else match Tokens(attempts[|attempts| - 1], pick, most)
      case None => CheckedTokens(attempts[..|attempts| - 1], pick, most)
      case Some(n) => CheckedAdd(CheckedTokens(attempts[..|attempts| - 1], pick, most), n)
  }

  function TokenSum(attempts: seq<Attempt>, pick: Attempt -> Option<nat>, most: nat): nat {
    if attempts == [] then 0
    else TokenSum(attempts[..|attempts| - 1], pick, most) + Tokens(attempts[|attempts| - 1], pick, most).GetOr(0)
  }

  lemma {:induction false} TokenSumBounded(attempts: seq<Attempt>, pick: Attempt -> Option<nat>, most: nat)
    ensures TokenSum(attempts, pick, most) <= |attempts| * most
    ensures |attempts| * most <= U64_MAX ==> CheckedTokens(attempts, pick, most) == Some(TokenSum(attempts, pick, most))
  {
    if attempts != [] {
      TokenSumBounded(attempts[..|attempts| - 1], pick, most);
      assert |attempts| * most == (|attempts| - 1) * most + most;
    }
  }

  lemma {:induction false} TokensExact(attempts: seq<Attempt>, pick: Attempt -> Option<nat>, most: nat)
    requires |attempts| <= MAX_ATTEMPTS && most <= MAX_REPORTED_PROMPT_TOKENS
    ensures CheckedTokens(attempts, pick, most) == Some(TokenSum(attempts, pick, most))
    ensures TokenSum(attempts, pick, most) <= MAX_ATTEMPTS * MAX_REPORTED_PROMPT_TOKENS
  {
    TokenSumBounded(attempts, pick, most);
    ProductBound(|attempts|, most, MAX_ATTEMPTS, MAX_REPORTED_PROMPT_TOKENS);
  }

  datatype Summary = Summary(
    attempted: nat, succeeded: nat, failed: nat, errorPercent: real,
    attemptedRps: real, successfulRps: real,
    promptTokenSamples: nat, completionTokenSamples: nat,
    promptTokens: nat, completionTokens: nat, totalTokens: nat,
    completionUsageComplete: bool, totalUsageComplete: bool,
    completionGoodput: Option<real>, totalGoodput: Option<real>,
    headersMs: Option<D.Summary>, ttftMs: Option<D.Summary>, e2eMs: Option<D.Summary>,
    outputTokensPerSecond: Option<D.Summary>, failures: Counts)

  function HeadersOf(a: Attempt): Option<real> { a.headersMs }
  function TtftOf(a: Attempt): Option<real> { a.ttftMs }
  function E2eOf(a: Attempt): Option<real> { a.e2eMs }
  function OutputRateOf(a: Attempt): Option<real> { a.outputTokensPerSecond }
  function PromptOf(a: Attempt): Option<nat> { a.promptTokens }
  function CompletionOf(a: Attempt): Option<nat> { a.completionTokens }

  function SummaryOf(attempts: seq<Attempt>, durationNs: nat, maxTokens: nat): Summary {
    var attempted, succeeded := Clip(|attempts|), Clip(Succeeded(attempts));
    var failed := if attempted >= succeeded then attempted - succeeded else 0;
    var promptSamples := Clip(TokenSamples(attempts, PromptOf, MAX_REPORTED_PROMPT_TOKENS));
    var completionSamples := Clip(TokenSamples(attempts, CompletionOf, maxTokens));
    var prompt := CheckedTokens(attempts, PromptOf, MAX_REPORTED_PROMPT_TOKENS).GetOr(0);
    var completion := CheckedTokens(attempts, CompletionOf, maxTokens).GetOr(0);
    var total := CheckedAdd(Some(prompt), completion).GetOr(0);
    var completionComplete := succeeded > 0 && completionSamples == succeeded;
    var totalComplete := completionComplete && promptSamples == succeeded;
    Summary(
      attempted, succeeded, failed, ErrorPercent(failed, attempted),
      Rate(attempted, durationNs), Rate(succeeded, durationNs),
      promptSamples, completionSamples, prompt, completion, total, completionComplete, totalComplete,
      if completionComplete then Some(Rate(completion, durationNs)) else None,
      if totalComplete then Some(Rate(total, durationNs)) else None,
      D.DistributionOf(Measured(attempts, HeadersOf)), D.DistributionOf(Measured(attempts, TtftOf)),
      D.DistributionOf(Measured(attempts, E2eOf)), D.DistributionOf(Measured(attempts, OutputRateOf)),
      CountsOf(attempts))
  }

  /** In a stage of an admitted run no token sum overflows, so the totals are true totals and the
      fallback to zero is never taken. */
  lemma {:induction false} TokenTotalsAreExact(attempts: seq<Attempt>, durationNs: nat, maxTokens: nat)
    requires |attempts| <= MAX_ATTEMPTS && maxTokens <= MAX_COMPLETION_TOKENS
    ensures var s := SummaryOf(attempts, durationNs, maxTokens);
      && s.promptTokens == TokenSum(attempts, PromptOf, MAX_REPORTED_PROMPT_TOKENS)
      && s.completionTokens == TokenSum(attempts, CompletionOf, maxTokens)
      && s.totalTokens == s.promptTokens + s.completionTokens
      && s.attempted == |attempts| && s.succeeded == Succeeded(attempts) && s.failed == |attempts| - Succeeded(attempts)
  {
    TokensExact(attempts, PromptOf, MAX_REPORTED_PROMPT_TOKENS);
    TokensExact(attempts, CompletionOf, maxTokens);
    TotalIsExact(TokenSum(attempts, PromptOf, MAX_REPORTED_PROMPT_TOKENS), TokenSum(attempts, CompletionOf, maxTokens));
  }

  lemma {:induction false} TotalIsExact(prompt: nat, completion: nat)
    requires prompt <= MAX_ATTEMPTS * MAX_REPORTED_PROMPT_TOKENS && completion <= MAX_ATTEMPTS * MAX_REPORTED_PROMPT_TOKENS
    ensures CheckedAdd(Some(prompt), completion) == Some(prompt + completion)
  {
  }

  // ---- Gates ----

  datatype GateKind = SuccessfulRequests | ErrorRate | P95Ttft | P95E2e | SuccessfulRps | CompletionGoodput
  datatype Operator = AtLeast | NotAbove
  datatype GateStatus = Pass | Fail | NotEvaluable
  datatype GateReason = NoSuccessfulRequests | InsufficientSamples | IncompleteUsageEvidence

  datatype Gate = Gate(
    kind: GateKind, operator: Operator, observed: Option<real>, threshold: real, status: GateStatus,
    reason: Option<GateReason>, samples: Option<nat>, required: Option<nat>)

  function PassOrFail(passed: bool): GateStatus { if passed then Pass else Fail }

  function LatencyGate(kind: GateKind, d: Option<D.Summary>, succeeded: nat, threshold: real, minimumSamples: nat): Gate {
    var samples := match d case None => 0 case Some(v) => Clip(v.samples);
    var observed := match d case None => None case Some(v) => Some(v.p95);
    var (status, reason) :=
      if succeeded == 0 then (NotEvaluable, Some(NoSuccessfulRequests))
      else if samples < minimumSamples then (NotEvaluable, Some(InsufficientSamples))
      else (PassOrFail(observed.Some? && observed.value <= threshold), None);
    Gate(kind, NotAbove, observed, threshold, status, reason, Some(samples), Some(minimumSamples))
  }

  function GoodputGate(s: Summary, threshold: real): Gate {
    var observed := s.completionGoodput;
    var (status, reason) :=
      if s.succeeded == 0 then (NotEvaluable, Some(NoSuccessfulRequests))
      else if !s.completionUsageComplete then (NotEvaluable, Some(IncompleteUsageEvidence))
      else (PassOrFail(observed.Some? && observed.value >= threshold), None);
    Gate(CompletionGoodput, AtLeast, observed, threshold, status, reason, Some(s.completionTokenSamples), Some(s.succeeded))
  }

  function BaseGates(s: Summary, policy: Policy): seq<Gate> {
    [Gate(SuccessfulRequests, AtLeast, Some(s.succeeded as real), 1.0, PassOrFail(s.succeeded > 0), None, None, None),
     Gate(ErrorRate, NotAbove, Some(s.errorPercent), policy.maxErrorPercent,
          PassOrFail(s.errorPercent <= policy.maxErrorPercent), None, None, None)]
  }

  function TtftGates(s: Summary, p: Policy): seq<Gate> {
    match p.maxP95TtftMs case None => [] case Some(t) => [LatencyGate(P95Ttft, s.ttftMs, s.succeeded, t, p.minimumLatencySamples)]
  }

  function E2eGates(s: Summary, p: Policy): seq<Gate> {
    match p.maxP95E2eMs case None => [] case Some(t) => [LatencyGate(P95E2e, s.e2eMs, s.succeeded, t, p.minimumLatencySamples)]
  }

  function RpsGates(s: Summary, p: Policy): seq<Gate> {
    match p.minSuccessfulRequestsPerSecond
    case None => []
    case Some(t) => [Gate(SuccessfulRps, AtLeast, Some(s.successfulRps), t, PassOrFail(s.successfulRps >= t), None, None, None)]
  }

  function GoodputGates(s: Summary, p: Policy): seq<Gate> {
    match p.minCompletionTokenGoodputPerSecond case None => [] case Some(t) => [GoodputGate(s, t)]
  }

  function GatesOf(s: Summary, p: Policy): seq<Gate> {
    BaseGates(s, p) + TtftGates(s, p) + E2eGates(s, p) + RpsGates(s, p) + GoodputGates(s, p)
  }

  method CanonicalGates(s: Summary, p: Policy) returns (gates: seq<Gate>)
    ensures gates == GatesOf(s, p)
  {
    gates := BaseGates(s, p);
    if p.maxP95TtftMs.Some? {
      gates := gates + [LatencyGate(P95Ttft, s.ttftMs, s.succeeded, p.maxP95TtftMs.value, p.minimumLatencySamples)];
    }
    if p.maxP95E2eMs.Some? {
      gates := gates + [LatencyGate(P95E2e, s.e2eMs, s.succeeded, p.maxP95E2eMs.value, p.minimumLatencySamples)];
    }
    if p.minSuccessfulRequestsPerSecond.Some? {
      var t := p.minSuccessfulRequestsPerSecond.value;
      gates := gates + [Gate(SuccessfulRps, AtLeast, Some(s.successfulRps), t, PassOrFail(s.successfulRps >= t), None, None, None)];
    }
    if p.minCompletionTokenGoodputPerSecond.Some? {
      gates := gates + [GoodputGate(s, p.minCompletionTokenGoodputPerSecond.value)];
    }
  }

  /** A p95 latency gate passes iff some attempt succeeded, enough of them were measured, and at
      least 95 of every hundred measurements, rounded up, are at or below the threshold. */
  lemma {:induction false} LatencyGatePassesIff(kind: GateKind, attempts: seq<Attempt>, pick: Attempt -> Option<real>, threshold: real, minimumSamples: nat)
    requires 0 < minimumSamples && |attempts| <= U32_MAX
    ensures var values := Measured(attempts, pick);
      LatencyGate(kind, D.DistributionOf(values), Succeeded(attempts), threshold, minimumSamples).status == Pass
      <==> Succeeded(attempts) > 0 && |values| >= minimumSamples
           && D.CountAtMost(values, threshold) >= D.CeilDiv(95 * |values|, 100)
  {
    var values := Measured(attempts, pick);
    if values != [] {
      D.P95WithinThreshold(values, threshold);
      D.DistributionOrdered(values);
    }
  }

  predicate SomeGate(gates: seq<Gate>, status: GateStatus) { exists i | 0 <= i < |gates| :: gates[i].status == status }

  predicate AllPass(gates: seq<Gate>) { forall i | 0 <= i < |gates| :: gates[i].status == Pass }

  // ---- Stopping ----

  datatype AbortReason =
    WarmupNoSuccessfulRequests | WarmupErrorRateLimitExceeded | StageNoSuccessfulRequests | StageErrorRateLimitExceeded

  datatype PhaseStatus = Complete | Aborted

  datatype Warmup = Warmup(
    status: PhaseStatus, concurrency: nat, planned: nat, attempted: nat, succeeded: nat, failed: nat,
    errorPercent: real, durationNs: nat, durationMs: nat, failures: Counts)

  function WarmupAbort(w: Warmup, abortErrorPercent: real): Option<AbortReason> {
    if w.succeeded == 0 then Some(WarmupNoSuccessfulRequests)
    else if w.errorPercent >= abortErrorPercent then Some(WarmupErrorRateLimitExceeded)
    else None
  }

  function StageAbort(s: Summary, abortErrorPercent: real): Option<AbortReason> {
    if s.succeeded == 0 then Some(StageNoSuccessfulRequests)
    else if s.errorPercent >= abortErrorPercent then Some(StageErrorRateLimitExceeded)
    else None
  }

  /** The warmup row before its status is decided. */
  function SummarizeWarmup(attempts: seq<Attempt>, concurrency: nat, planned: nat, duration: nat): Warmup {
    var attempted, succeeded := Clip(|attempts|), Clip(Succeeded(attempts));
    var failed := if attempted >= succeeded then attempted - succeeded else 0;
    Warmup(Complete, concurrency, planned, attempted, succeeded, failed, ErrorPercent(failed, attempted),
           ElapsedNanos(duration), ElapsedMillis(duration), CountsOf(attempts))
  }
}
