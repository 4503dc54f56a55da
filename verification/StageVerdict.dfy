/** What the gates of a stage say about its attempts, without the summary in between. */
module StageVerdict {
  import opened Common
  import opened Attempts
  import opened Admission
  import opened StageSummary
  import D = Distribution

  function Seconds(durationNs: nat): real { durationNs as real / 1_000_000_000.0 }

  /** Some attempt succeeded, enough were measured, and at least 95 of every hundred measurements,
      rounded up, are at or below the threshold. */
  predicate LatencyMet(attempts: seq<Attempt>, pick: Attempt -> Option<real>, threshold: Option<real>, minimumSamples: nat) {
    threshold.Some? ==>
      var values := Measured(attempts, pick);
      |values| >= minimumSamples && D.CountAtMost(values, threshold.value) >= D.CeilDiv(95 * |values|, 100)
  }

  /** Every success reports a token count in range. */
  ghost predicate AllReport(attempts: seq<Attempt>, pick: Attempt -> Option<nat>, most: nat) {
    forall i :: 0 <= i < |attempts| && attempts[i].success ==> Tokens(attempts[i], pick, most).Some?
  }

  ghost predicate UsageComplete(attempts: seq<Attempt>, maxTokens: nat) { AllReport(attempts, CompletionOf, maxTokens) }

  /** Failures in percent at or below the limit. */
  predicate ErrorsMet(failed: nat, attempted: nat, most: real) { failed as real * 100.0 <= most * attempted as real }

  predicate RateMet(total: nat, threshold: Option<real>, durationNs: nat) {
    threshold.Some? ==> total as real >= threshold.value * Seconds(durationNs)
  }

  /** What a policy asks of the attempts of a stage. */
  ghost predicate Meets(attempts: seq<Attempt>, durationNs: nat, maxTokens: nat, p: Policy) {
    var succeeded := Succeeded(attempts);
    && succeeded >= 1
    && ErrorsMet(|attempts| - succeeded, |attempts|, p.maxErrorPercent)
    && LatencyMet(attempts, TtftOf, p.maxP95TtftMs, p.minimumLatencySamples)
    && LatencyMet(attempts, E2eOf, p.maxP95E2eMs, p.minimumLatencySamples)
    && RateMet(succeeded, p.minSuccessfulRequestsPerSecond, durationNs)
    && GoodputMet(attempts, durationNs, maxTokens, p.minCompletionTokenGoodputPerSecond)
  }

  /** Every success reports its tokens, and there are enough of them. */
  ghost predicate GoodputMet(attempts: seq<Attempt>, durationNs: nat, maxTokens: nat, threshold: Option<real>) {
    threshold.Some? ==>
      UsageComplete(attempts, maxTokens) && RateMet(TokenSum(attempts, CompletionOf, maxTokens), threshold, durationNs)
  }

  lemma {:induction false} AllPassAppend(a: seq<Gate>, b: seq<Gate>)
    ensures AllPass(a + b) <==> AllPass(a) && AllPass(b)
  {
    if AllPass(a + b) {
      forall i | 0 <= i < |a| ensures a[i].status == Pass { assert (a + b)[i] == a[i]; }
      forall i | 0 <= i < |b| ensures b[i].status == Pass { assert (a + b)[|a| + i] == b[i]; }
    }
  }

  lemma {:induction false} AllPassOne(g: Gate)
    ensures AllPass([g]) <==> g.status == Pass
  {
    assert [g][0] == g;
  }

  lemma {:induction false} FiveParts(a: seq<Gate>, b: seq<Gate>, c: seq<Gate>, d: seq<Gate>, e: seq<Gate>)
    ensures AllPass(a + b + c + d + e) <==> AllPass(a) && AllPass(b) && AllPass(c) && AllPass(d) && AllPass(e)
  {
    AllPassAppend(a, b);
    AllPassAppend(a + b, c);
    AllPassAppend(a + b + c, d);
    AllPassAppend(a + b + c + d, e);
  }

  lemma {:induction false} BasePassesIff(s: Summary, p: Policy)
    ensures AllPass(BaseGates(s, p)) <==> s.succeeded > 0 && s.errorPercent <= p.maxErrorPercent
  {
    var gates := BaseGates(s, p);
    assert AllPass(gates) <==> gates[0].status == Pass && gates[1].status == Pass;
  }

  predicate TtftPasses(s: Summary, p: Policy) {
    p.maxP95TtftMs.Some? ==>
      LatencyGate(P95Ttft, s.ttftMs, s.succeeded, p.maxP95TtftMs.value, p.minimumLatencySamples).status == Pass
  }

  predicate E2ePasses(s: Summary, p: Policy) {
    p.maxP95E2eMs.Some? ==>
      LatencyGate(P95E2e, s.e2eMs, s.succeeded, p.maxP95E2eMs.value, p.minimumLatencySamples).status == Pass
  }

  predicate GoodputPasses(s: Summary, p: Policy) {
    p.minCompletionTokenGoodputPerSecond.Some? ==> GoodputGate(s, p.minCompletionTokenGoodputPerSecond.value).status == Pass
  }

  predicate RpsPasses(s: Summary, p: Policy) {
    p.minSuccessfulRequestsPerSecond.Some? ==> s.successfulRps >= p.minSuccessfulRequestsPerSecond.value
  }

  lemma {:induction false} OptionalPassIff(s: Summary, p: Policy)
    ensures AllPass(TtftGates(s, p)) <==> TtftPasses(s, p)
    ensures AllPass(E2eGates(s, p)) <==> E2ePasses(s, p)
    ensures AllPass(RpsGates(s, p)) <==> RpsPasses(s, p)
    ensures AllPass(GoodputGates(s, p)) <==> GoodputPasses(s, p)
  {
    if p.maxP95TtftMs.Some? { AllPassOne(TtftGates(s, p)[0]); }
    if p.maxP95E2eMs.Some? { AllPassOne(E2eGates(s, p)[0]); }
    if p.minSuccessfulRequestsPerSecond.Some? { AllPassOne(RpsGates(s, p)[0]); }
    if p.minCompletionTokenGoodputPerSecond.Some? { AllPassOne(GoodputGates(s, p)[0]); }
  }

  /** The gates pass iff each of them does. */
  lemma {:induction false} GatesPassIff(s: Summary, p: Policy)
    ensures AllPass(GatesOf(s, p)) <==>
      && s.succeeded > 0 && s.errorPercent <= p.maxErrorPercent
      && TtftPasses(s, p) && E2ePasses(s, p) && RpsPasses(s, p) && GoodputPasses(s, p)
  {
    FiveParts(BaseGates(s, p), TtftGates(s, p), E2eGates(s, p), RpsGates(s, p), GoodputGates(s, p));
    BasePassesIff(s, p);
    OptionalPassIff(s, p);
  }

  lemma {:induction false} PercentMet(failed: nat, attempted: nat, most: real)
    requires attempted > 0
    ensures ErrorPercent(failed, attempted) <= most <==> ErrorsMet(failed, attempted, most)
  {
    var n := attempted as real;
    var x := failed as real * 100.0;
    assert x / n * n == x;
    if x / n <= most { assert x / n * n <= most * n; }
    if x / n > most { assert x / n * n > most * n; }
  }

  lemma {:induction false} RateMetIff(total: nat, threshold: real, durationNs: nat)
    requires durationNs >= 1
    ensures Rate(total, durationNs) >= threshold <==> total as real >= threshold * Seconds(durationNs)
  {
    var n := Seconds(durationNs);
    var x := total as real;
    assert n > 0.0 && x / n * n == x;
    if x / n >= threshold { assert x / n * n >= threshold * n; }
    if x / n < threshold { assert x / n * n < threshold * n; }
  }

  /** As many token reports as successes means that each success has one. */
  lemma {:induction false} SamplesComplete(attempts: seq<Attempt>, pick: Attempt -> Option<nat>, most: nat)
    ensures TokenSamples(attempts, pick, most) <= Succeeded(attempts)
    ensures TokenSamples(attempts, pick, most) == Succeeded(attempts) <==> AllReport(attempts, pick, most)
  {
    if attempts != [] {
      var last := |attempts| - 1;
      SamplesComplete(attempts[..last], pick, most);
      assert AllReport(attempts, pick, most) <==>
        AllReport(attempts[..last], pick, most) && (attempts[last].success ==> Tokens(attempts[last], pick, most).Some?);
    }
  }

  /** What the verdict needs to know of the summary of some attempts. */
  ghost predicate Summarizes(s: Summary, attempts: seq<Attempt>, durationNs: nat, maxTokens: nat) {
    && s.succeeded == Succeeded(attempts)
    && s.errorPercent == ErrorPercent(|attempts| - Succeeded(attempts), |attempts|)
    && s.successfulRps == Rate(Succeeded(attempts), durationNs)
    && (s.completionUsageComplete <==> Succeeded(attempts) > 0 && UsageComplete(attempts, maxTokens))
    && (s.completionUsageComplete ==> s.completionGoodput == Some(Rate(TokenSum(attempts, CompletionOf, maxTokens), durationNs)))
    && s.ttftMs == D.DistributionOf(Measured(attempts, TtftOf)) && s.e2eMs == D.DistributionOf(Measured(attempts, E2eOf))
  }

  lemma {:induction false} SummaryDoes(attempts: seq<Attempt>, durationNs: nat, maxTokens: nat)
    requires |attempts| <= MAX_ATTEMPTS && maxTokens <= MAX_COMPLETION_TOKENS
    ensures Summarizes(SummaryOf(attempts, durationNs, maxTokens), attempts, durationNs, maxTokens)
  {
    TokenTotalsAreExact(attempts, durationNs, maxTokens);
    SamplesComplete(attempts, CompletionOf, maxTokens);
  }

  lemma {:induction false} TtftMetIff(s: Summary, attempts: seq<Attempt>, p: Policy)
    requires 0 < p.minimumLatencySamples && |attempts| <= U32_MAX && s.succeeded == Succeeded(attempts) > 0
    requires s.ttftMs == D.DistributionOf(Measured(attempts, TtftOf))
    ensures TtftPasses(s, p) <==> LatencyMet(attempts, TtftOf, p.maxP95TtftMs, p.minimumLatencySamples)
  {
    if p.maxP95TtftMs.Some? { LatencyGatePassesIff(P95Ttft, attempts, TtftOf, p.maxP95TtftMs.value, p.minimumLatencySamples); }
  }

  lemma {:induction false} E2eMetIff(s: Summary, attempts: seq<Attempt>, p: Policy)
    requires 0 < p.minimumLatencySamples && |attempts| <= U32_MAX && s.succeeded == Succeeded(attempts) > 0
    requires s.e2eMs == D.DistributionOf(Measured(attempts, E2eOf))
    ensures E2ePasses(s, p) <==> LatencyMet(attempts, E2eOf, p.maxP95E2eMs, p.minimumLatencySamples)
  {
    if p.maxP95E2eMs.Some? { LatencyGatePassesIff(P95E2e, attempts, E2eOf, p.maxP95E2eMs.value, p.minimumLatencySamples); }
  }

  lemma {:induction false} GoodputMetIff(s: Summary, attempts: seq<Attempt>, durationNs: nat, maxTokens: nat, p: Policy)
    requires durationNs >= 1 && s.succeeded > 0 && (s.completionUsageComplete <==> UsageComplete(attempts, maxTokens))
    requires s.completionUsageComplete ==> s.completionGoodput == Some(Rate(TokenSum(attempts, CompletionOf, maxTokens), durationNs))
    ensures GoodputPasses(s, p) <==> GoodputMet(attempts, durationNs, maxTokens, p.minCompletionTokenGoodputPerSecond)
  {
    if p.minCompletionTokenGoodputPerSecond.Some? {
      RateMetIff(TokenSum(attempts, CompletionOf, maxTokens), p.minCompletionTokenGoodputPerSecond.value, durationNs);
    }
  }

  lemma {:induction false} RpsMetIff(s: Summary, succeeded: nat, durationNs: nat, p: Policy)
    requires durationNs >= 1 && s.successfulRps == Rate(succeeded, durationNs)
    ensures RpsPasses(s, p) <==> RateMet(succeeded, p.minSuccessfulRequestsPerSecond, durationNs)
  {
    if p.minSuccessfulRequestsPerSecond.Some? { RateMetIff(succeeded, p.minSuccessfulRequestsPerSecond.value, durationNs); }
  }

  /** Gate by gate the summary passes iff the attempts meet the policy. */
  ghost predicate GateByGate(s: Summary, attempts: seq<Attempt>, durationNs: nat, maxTokens: nat, p: Policy) {
    && (s.errorPercent <= p.maxErrorPercent <==> ErrorsMet(|attempts| - Succeeded(attempts), |attempts|, p.maxErrorPercent))
    && (TtftPasses(s, p) <==> LatencyMet(attempts, TtftOf, p.maxP95TtftMs, p.minimumLatencySamples))
    && (E2ePasses(s, p) <==> LatencyMet(attempts, E2eOf, p.maxP95E2eMs, p.minimumLatencySamples))
    && (RpsPasses(s, p) <==> RateMet(Succeeded(attempts), p.minSuccessfulRequestsPerSecond, durationNs))
    && (GoodputPasses(s, p) <==> GoodputMet(attempts, durationNs, maxTokens, p.minCompletionTokenGoodputPerSecond))
  }

  lemma {:induction false} GatesAgree(s: Summary, attempts: seq<Attempt>, durationNs: nat, maxTokens: nat, p: Policy)
    requires |attempts| <= MAX_ATTEMPTS && durationNs >= 1 && p.minimumLatencySamples > 0
    requires Summarizes(s, attempts, durationNs, maxTokens) && Succeeded(attempts) > 0
    ensures GateByGate(s, attempts, durationNs, maxTokens, p)
  {
    PercentMet(|attempts| - Succeeded(attempts), |attempts|, p.maxErrorPercent);
    TtftMetIff(s, attempts, p);
    E2eMetIff(s, attempts, p);
    RpsMetIff(s, Succeeded(attempts), durationNs, p);
    GoodputMetIff(s, attempts, durationNs, maxTokens, p);
  }

  lemma {:induction false} GatesDecide(s: Summary, attempts: seq<Attempt>, durationNs: nat, maxTokens: nat, p: Policy)
    requires s.succeeded == Succeeded(attempts) && (s.succeeded > 0 ==> GateByGate(s, attempts, durationNs, maxTokens, p))
    ensures AllPass(GatesOf(s, p)) <==> Meets(attempts, durationNs, maxTokens, p)
  {
    GatesPassIff(s, p);
  }

  /** All gates of a stage pass iff its attempts meet the policy. */
  lemma {:induction false} StagePassesIff(attempts: seq<Attempt>, durationNs: nat, maxTokens: nat, p: Policy)
    requires |attempts| <= MAX_ATTEMPTS && maxTokens <= MAX_COMPLETION_TOKENS && durationNs >= 1
    requires p.minimumLatencySamples > 0
    ensures AllPass(GatesOf(SummaryOf(attempts, durationNs, maxTokens), p)) <==> Meets(attempts, durationNs, maxTokens, p)
  {
    SummaryDoes(attempts, durationNs, maxTokens);
    PassesIffMeets(SummaryOf(attempts, durationNs, maxTokens), attempts, durationNs, maxTokens, p);
  }

  lemma {:induction false} PassesIffMeets(s: Summary, attempts: seq<Attempt>, durationNs: nat, maxTokens: nat, p: Policy)
    requires |attempts| <= MAX_ATTEMPTS && durationNs >= 1 && p.minimumLatencySamples > 0
    requires Summarizes(s, attempts, durationNs, maxTokens)
    ensures AllPass(GatesOf(s, p)) <==> Meets(attempts, durationNs, maxTokens, p)
  {
    if Succeeded(attempts) > 0 { GatesAgree(s, attempts, durationNs, maxTokens, p); }
    GatesDecide(s, attempts, durationNs, maxTokens, p);
  }

  // ---- Rates ----

  lemma {:induction false} RateTimes(total: nat, durationNs: nat)
    requires durationNs >= 1
    ensures Rate(total, durationNs) * Seconds(durationNs) == total as real
  {
  }

  /** A rate is what it says: times the duration it gives back its total. */
  predicate IsRate(rate: real, total: nat, durationNs: nat) { rate * Seconds(durationNs) == total as real }

  /** Requests and successes over time; goodput iff every success reports the tokens it counts. */
  predicate HasRates(
    s: Summary, attempted: nat, succeeded: nat, prompt: nat, completion: nat, completionComplete: bool, totalComplete: bool, durationNs: nat)
  {
    && IsRate(s.attemptedRps, attempted, durationNs) && IsRate(s.successfulRps, succeeded, durationNs)
    && (s.completionGoodput.Some? <==> completionComplete) && (s.totalGoodput.Some? <==> totalComplete)
    && (completionComplete ==> s.completionGoodput.Some? && IsRate(s.completionGoodput.value, completion, durationNs))
    && (totalComplete ==> s.totalGoodput.Some? && IsRate(s.totalGoodput.value, prompt + completion, durationNs))
  }

  lemma {:induction false} RatesFrom(
    s: Summary, attempted: nat, succeeded: nat, prompt: nat, completion: nat, completionComplete: bool, totalComplete: bool, durationNs: nat)
    requires durationNs >= 1 && s.attemptedRps == Rate(attempted, durationNs) && s.successfulRps == Rate(succeeded, durationNs)
    requires s.completionGoodput == if completionComplete then Some(Rate(completion, durationNs)) else None
    requires s.totalGoodput == if totalComplete then Some(Rate(prompt + completion, durationNs)) else None
    ensures HasRates(s, attempted, succeeded, prompt, completion, completionComplete, totalComplete, durationNs)
  {
    RateTimes(attempted, durationNs);
    RateTimes(succeeded, durationNs);
    RateTimes(completion, durationNs);
    RateTimes(prompt + completion, durationNs);
  }

  lemma {:induction false} GoodputsAre(
    s: Summary, attempts: seq<Attempt>, durationNs: nat, maxTokens: nat, prompt: nat, completion: nat, complete: bool, all: bool)
    requires |attempts| <= MAX_ATTEMPTS && maxTokens <= MAX_COMPLETION_TOKENS && s == SummaryOf(attempts, durationNs, maxTokens)
    requires prompt == TokenSum(attempts, PromptOf, MAX_REPORTED_PROMPT_TOKENS) && completion == TokenSum(attempts, CompletionOf, maxTokens)
    requires complete <==> Succeeded(attempts) > 0 && UsageComplete(attempts, maxTokens)
    requires all <==> complete && AllReport(attempts, PromptOf, MAX_REPORTED_PROMPT_TOKENS)
    ensures s.attemptedRps == Rate(|attempts|, durationNs) && s.successfulRps == Rate(Succeeded(attempts), durationNs)
    ensures s.completionGoodput == if complete then Some(Rate(completion, durationNs)) else None
    ensures s.totalGoodput == if all then Some(Rate(prompt + completion, durationNs)) else None
  {
    TokenTotalsAreExact(attempts, durationNs, maxTokens);
    SamplesComplete(attempts, CompletionOf, maxTokens);
    SamplesComplete(attempts, PromptOf, MAX_REPORTED_PROMPT_TOKENS);
  }

  lemma {:induction false} RatesOf(
    s: Summary, attempts: seq<Attempt>, durationNs: nat, maxTokens: nat, prompt: nat, completion: nat, complete: bool, all: bool)
    requires |attempts| <= MAX_ATTEMPTS && maxTokens <= MAX_COMPLETION_TOKENS && s == SummaryOf(attempts, durationNs, maxTokens) && durationNs >= 1
    requires prompt == TokenSum(attempts, PromptOf, MAX_REPORTED_PROMPT_TOKENS) && completion == TokenSum(attempts, CompletionOf, maxTokens)
    requires complete <==> Succeeded(attempts) > 0 && UsageComplete(attempts, maxTokens)
    requires all <==> complete && AllReport(attempts, PromptOf, MAX_REPORTED_PROMPT_TOKENS)
    ensures HasRates(s, |attempts|, Succeeded(attempts), prompt, completion, complete, all, durationNs)
  {
    GoodputsAre(s, attempts, durationNs, maxTokens, prompt, completion, complete, all);
    RatesFrom(s, |attempts|, Succeeded(attempts), prompt, completion, complete, all, durationNs);
  }

  /** The rates of a stage give back its requests, successes and tokens. */
  lemma {:induction false} RatesGiveBackTotals(attempts: seq<Attempt>, durationNs: nat, maxTokens: nat)
    requires |attempts| <= MAX_ATTEMPTS && maxTokens <= MAX_COMPLETION_TOKENS && durationNs >= 1
    ensures var complete := Succeeded(attempts) > 0 && UsageComplete(attempts, maxTokens);
      HasRates(SummaryOf(attempts, durationNs, maxTokens), |attempts|, Succeeded(attempts),
               TokenSum(attempts, PromptOf, MAX_REPORTED_PROMPT_TOKENS), TokenSum(attempts, CompletionOf, maxTokens),
               complete, complete && AllReport(attempts, PromptOf, MAX_REPORTED_PROMPT_TOKENS), durationNs)
  {
    var complete := Succeeded(attempts) > 0 && UsageComplete(attempts, maxTokens);
    RatesOf(SummaryOf(attempts, durationNs, maxTokens), attempts, durationNs, maxTokens,
            TokenSum(attempts, PromptOf, MAX_REPORTED_PROMPT_TOKENS), TokenSum(attempts, CompletionOf, maxTokens),
            complete, complete && AllReport(attempts, PromptOf, MAX_REPORTED_PROMPT_TOKENS));
  }

  // ---- Counts ----

  lemma {:induction false} SucceededAre(attempts: seq<Attempt>)
    ensures Succeeded(attempts) == |Where(attempts, (a: Attempt) => a.success)|
  {
    if attempts != [] {
      SucceededAre(attempts[..|attempts| - 1]);
      WhereGrows(attempts, (a: Attempt) => a.success);
    }
  }

  lemma {:induction false} FailedAre(attempts: seq<Attempt>)
    ensures |attempts| - Succeeded(attempts) == |Where(attempts, (a: Attempt) => !a.success)|
  {
    if attempts != [] {
      FailedAre(attempts[..|attempts| - 1]);
      WhereGrows(attempts, (a: Attempt) => !a.success);
    }
  }

  lemma {:induction false} CountStageIs(attempts: seq<Attempt>, stage: FailureStage)
    ensures CountStage(attempts, stage) == |Where(attempts, (a: Attempt) => a.failureStage == Some(stage))|
  {
    if attempts != [] {
      CountStageIs(attempts[..|attempts| - 1], stage);
      WhereGrows(attempts, (a: Attempt) => a.failureStage == Some(stage));
    }
  }

  /** The failure counts of a phase are the numbers of its attempts that failed at each point. */
  lemma {:induction false} CountsAre(attempts: seq<Attempt>)
    requires |attempts| <= U32_MAX
    ensures var c := CountsOf(attempts);
      && c.transport == |Where(attempts, (a: Attempt) => a.failureStage == Some(Transport))|
      && c.http == |Where(attempts, (a: Attempt) => a.failureStage == Some(Http))|
      && c.protocol == |Where(attempts, (a: Attempt) => a.failureStage == Some(Protocol))|
      && c.emptyOutput == |Where(attempts, (a: Attempt) => a.failureStage == Some(EmptyOutput))|
      && c.expectation == |Where(attempts, (a: Attempt) => a.failureStage == Some(Expectation))|
  {
    CountStageIs(attempts, Transport);
    CountStageIs(attempts, Http);
    CountStageIs(attempts, Protocol);
    CountStageIs(attempts, EmptyOutput);
    CountStageIs(attempts, Expectation);
  }

  // ---- Measurements and tokens ----

  /** A successful attempt whose measurement is at most the threshold. */
  predicate AtOrBelow(success: bool, measured: Option<real>, t: real) { success && measured.Some? && measured.value <= t }

  ghost function CountWithin(attempts: seq<Attempt>, pick: Attempt -> Option<real>, t: real): nat {
    |Where(attempts, (a: Attempt) => AtOrBelow(a.success, pick(a), t))|
  }

  /** The measurements of a stage are those its successful attempts carry, counted here by how many are
      at or below a threshold. */
  lemma {:induction false} MeasuredAre(attempts: seq<Attempt>, pick: Attempt -> Option<real>, t: real)
    ensures |Measured(attempts, pick)| == |Where(attempts, (a: Attempt) => a.success && pick(a).Some?)|
    ensures D.CountAtMost(Measured(attempts, pick), t) == CountWithin(attempts, pick, t)
  {
    if attempts != [] {
      var init, last := attempts[..|attempts| - 1], attempts[|attempts| - 1];
      MeasuredAre(init, pick, t);
      WhereGrows(attempts, (a: Attempt) => a.success && pick(a).Some?);
      OneMoreWithin(attempts, pick, t);
      if last.success && pick(last).Some? {
        CountOneMore(Measured(init, pick), pick(last).value, t);
        assert Measured(attempts, pick) == Measured(init, pick) + [pick(last).value];
      } else {
        assert Measured(attempts, pick) == Measured(init, pick);
      }
    }
  }

  lemma {:induction false} OneMoreWithin(attempts: seq<Attempt>, pick: Attempt -> Option<real>, t: real)
    requires attempts != []
    ensures CountWithin(attempts, pick, t) == CountWithin(attempts[..|attempts| - 1], pick, t)
      + if AtOrBelow(attempts[|attempts| - 1].success, pick(attempts[|attempts| - 1]), t) then 1 else 0
  {
    WhereGrows(attempts, (a: Attempt) => AtOrBelow(a.success, pick(a), t));
  }

  lemma {:induction false} CountOneMore(values: seq<real>, v: real, t: real)
    ensures D.CountAtMost(values + [v], t) == D.CountAtMost(values, t) + if v <= t then 1 else 0
  {
    assert (values + [v])[..|values|] == values;
  }

  lemma {:induction false} SameWhere<T>(items: seq<T>, p: T -> bool, q: T -> bool)
    requires forall x :: p(x) == q(x)
    ensures Where(items, p) == Where(items, q)
  {
  }

  /** Which measurement of an attempt each distribution is of. */
  lemma {:induction false} PicksAre(attempts: seq<Attempt>, t: real)
    ensures D.CountAtMost(Measured(attempts, HeadersOf), t) == |Where(attempts, (a: Attempt) => AtOrBelow(a.success, a.headersMs, t))|
    ensures D.CountAtMost(Measured(attempts, TtftOf), t) == |Where(attempts, (a: Attempt) => AtOrBelow(a.success, a.ttftMs, t))|
    ensures D.CountAtMost(Measured(attempts, E2eOf), t) == |Where(attempts, (a: Attempt) => AtOrBelow(a.success, a.e2eMs, t))|
    ensures D.CountAtMost(Measured(attempts, OutputRateOf), t)
         == |Where(attempts, (a: Attempt) => AtOrBelow(a.success, a.outputTokensPerSecond, t))|
  {
    PickIs(attempts, HeadersOf, t, (a: Attempt) => AtOrBelow(a.success, a.headersMs, t));
    PickIs(attempts, TtftOf, t, (a: Attempt) => AtOrBelow(a.success, a.ttftMs, t));
    PickIs(attempts, E2eOf, t, (a: Attempt) => AtOrBelow(a.success, a.e2eMs, t));
    PickIs(attempts, OutputRateOf, t, (a: Attempt) => AtOrBelow(a.success, a.outputTokensPerSecond, t));
  }

  lemma {:induction false} PickIs(attempts: seq<Attempt>, pick: Attempt -> Option<real>, t: real, holds: Attempt -> bool)
    requires forall a: Attempt :: holds(a) == AtOrBelow(a.success, pick(a), t)
    ensures D.CountAtMost(Measured(attempts, pick), t) == |Where(attempts, holds)|
  {
    MeasuredAre(attempts, pick, t);
    SameWhere(attempts, holds, (a: Attempt) => AtOrBelow(a.success, pick(a), t));
  }

  /** A distribution is there iff there are values, and describes them. */
  ghost predicate DescribesAll(d: Option<D.Summary>, values: seq<real>) {
    (d.Some? <==> values != []) && (d.Some? ==> D.Describes(d.value, values))
  }

  /** Each distribution of a stage describes its own measurement. */
  lemma {:induction false} TimesAre(attempts: seq<Attempt>, durationNs: nat, maxTokens: nat)
    requires |attempts| <= MAX_ATTEMPTS
    ensures var s := SummaryOf(attempts, durationNs, maxTokens);
      && DescribesAll(s.headersMs, Measured(attempts, HeadersOf)) && DescribesAll(s.ttftMs, Measured(attempts, TtftOf))
      && DescribesAll(s.e2eMs, Measured(attempts, E2eOf)) && DescribesAll(s.outputTokensPerSecond, Measured(attempts, OutputRateOf))
  {
    D.DistributionIs(Measured(attempts, HeadersOf));
    D.DistributionIs(Measured(attempts, TtftOf));
    D.DistributionIs(Measured(attempts, E2eOf));
    D.DistributionIs(Measured(attempts, OutputRateOf));
  }

  /** What one attempt adds to a token total: a successful one its count when that is in range. */
  function Counted(success: bool, tokens: Option<nat>, most: nat): nat {
    match tokens
    case None => 0
    case Some(n) => if success && n <= most then n else 0
  }

  /** Token totals add up over the attempts, each with its own count. */
  lemma {:induction false} TokenSumsAre(attempts: seq<Attempt>, more: seq<Attempt>, a: Attempt, most: nat)
    ensures TokenSum([a], PromptOf, most) == Counted(a.success, a.promptTokens, most)
    ensures TokenSum([a], CompletionOf, most) == Counted(a.success, a.completionTokens, most)
    ensures TokenSum(attempts + more, PromptOf, most) == TokenSum(attempts, PromptOf, most) + TokenSum(more, PromptOf, most)
    ensures TokenSum(attempts + more, CompletionOf, most)
         == TokenSum(attempts, CompletionOf, most) + TokenSum(more, CompletionOf, most)
  {
    assert [a][..0] == [];
    TokenSumAppend(attempts, more, PromptOf, most);
    TokenSumAppend(attempts, more, CompletionOf, most);
  }

  lemma {:induction false} TokenSumAppend(attempts: seq<Attempt>, more: seq<Attempt>, pick: Attempt -> Option<nat>, most: nat)
    ensures TokenSum(attempts + more, pick, most) == TokenSum(attempts, pick, most) + TokenSum(more, pick, most)
  {
    if more == [] {
      assert attempts + more == attempts;
    } else {
      assert (attempts + more)[..|attempts + more| - 1] == attempts + more[..|more| - 1];
      TokenSumAppend(attempts, more[..|more| - 1], pick, most);
    }
  }

  lemma {:induction false} ReportsAre(attempts: seq<Attempt>, pick: Attempt -> Option<nat>, most: nat)
    ensures TokenSamples(attempts, pick, most) == |Where(attempts, (a: Attempt) => InRange(a.success, pick(a), most))|
  {
    if attempts != [] {
      ReportsAre(attempts[..|attempts| - 1], pick, most);
      WhereGrows(attempts, (a: Attempt) => InRange(a.success, pick(a), most));
    }
  }

  /** A successful attempt that reports between one token and the most. */
  predicate InRange(success: bool, tokens: Option<nat>, most: nat) { success && tokens.Some? && 1 <= tokens.value <= most }

  lemma {:induction false} ReportsOf(attempts: seq<Attempt>, pick: Attempt -> Option<nat>, most: nat, holds: Attempt -> bool)
    requires forall a: Attempt :: holds(a) == InRange(a.success, pick(a), most)
    ensures TokenSamples(attempts, pick, most) == |Where(attempts, holds)|
  {
    ReportsAre(attempts, pick, most);
    SameWhere(attempts, holds, (a: Attempt) => InRange(a.success, pick(a), most));
  }

  /** The counts of a summary: attempts, successes, failures, where they failed, and token reports. */
  lemma {:induction false} SummaryCounts(attempts: seq<Attempt>, durationNs: nat, maxTokens: nat)
    requires |attempts| <= U32_MAX
    ensures var s := SummaryOf(attempts, durationNs, maxTokens);
      && s.attempted == |attempts| && s.succeeded == |Where(attempts, (a: Attempt) => a.success)|
      && s.failed == |Where(attempts, (a: Attempt) => !a.success)| && s.failures == CountsOf(attempts)
      && s.promptTokenSamples == |Where(attempts, (a: Attempt) => InRange(a.success, a.promptTokens, 10_000_000))|
      && s.completionTokenSamples == |Where(attempts, (a: Attempt) => InRange(a.success, a.completionTokens, maxTokens))|
  {
    SucceededAre(attempts);
    FailedAre(attempts);
    ReportsOf(attempts, PromptOf, MAX_REPORTED_PROMPT_TOKENS, (a: Attempt) => InRange(a.success, a.promptTokens, 10_000_000));
    ReportsOf(attempts, CompletionOf, maxTokens, (a: Attempt) => InRange(a.success, a.completionTokens, maxTokens));
  }

  // ---- When a phase stops the run ----

  /** No attempt succeeded. */
  ghost predicate Barren(attempts: seq<Attempt>) { forall i :: 0 <= i < |attempts| ==> !attempts[i].success }

  /** The share of failed attempts, in percent, is at or above the limit. */
  ghost predicate TooManyFail(attempts: seq<Attempt>, limit: real) {
    |Where(attempts, (a: Attempt) => !a.success)| as real * 100.0 >= limit * |attempts| as real
  }

  lemma {:induction false} BarrenIff(attempts: seq<Attempt>)
    ensures Succeeded(attempts) == 0 <==> Barren(attempts)
  {
    if attempts != [] {
      var last := |attempts| - 1;
      BarrenIff(attempts[..last]);
      assert Barren(attempts) <==> Barren(attempts[..last]) && !attempts[last].success;
    }
  }

  lemma {:induction false} PercentReached(failed: nat, attempted: nat, limit: real)
    requires attempted > 0
    ensures ErrorPercent(failed, attempted) >= limit <==> failed as real * 100.0 >= limit * attempted as real
  {
    var n := attempted as real;
    var x := failed as real * 100.0;
    assert x / n * n == x;
    if x / n >= limit { assert x / n * n >= limit * n; }
    if x / n < limit { assert x / n * n < limit * n; }
  }

  lemma {:induction false} StopsIff(attempts: seq<Attempt>, succeeded: nat, errorPercent: real, limit: real)
    requires succeeded == Succeeded(attempts) && errorPercent == ErrorPercent(|attempts| - succeeded, |attempts|)
    ensures succeeded == 0 <==> Barren(attempts)
    ensures succeeded > 0 ==> (errorPercent >= limit <==> TooManyFail(attempts, limit))
  {
    BarrenIff(attempts);
    FailedAre(attempts);
    if succeeded > 0 { PercentReached(|attempts| - succeeded, |attempts|, limit); }
  }

  /** A stage stops the run for want of a success iff no attempt succeeded, and for its errors iff some
      did and the failed ones, in percent, reach the limit. */
  lemma {:induction false} StageStopsIff(attempts: seq<Attempt>, durationNs: nat, maxTokens: nat, limit: real)
    requires |attempts| <= U32_MAX
    ensures var reason := StageAbort(SummaryOf(attempts, durationNs, maxTokens), limit);
      && (reason == Some(StageNoSuccessfulRequests) <==> Barren(attempts))
      && (reason == Some(StageErrorRateLimitExceeded) <==> !Barren(attempts) && TooManyFail(attempts, limit))
      && (reason.None? <==> !Barren(attempts) && !TooManyFail(attempts, limit))
  {
    var s := SummaryOf(attempts, durationNs, maxTokens);
    StopsIff(attempts, s.succeeded, s.errorPercent, limit);
  }

  /** And so does a warmup. */
  lemma {:induction false} WarmupStopsIff(attempts: seq<Attempt>, concurrency: nat, planned: nat, duration: nat, limit: real)
    requires |attempts| <= U32_MAX
    ensures var w := SummarizeWarmup(attempts, concurrency, planned, duration);
      && (WarmupAbort(w, limit) == Some(WarmupNoSuccessfulRequests) <==> Barren(attempts))
      && (WarmupAbort(w, limit) == Some(WarmupErrorRateLimitExceeded) <==> !Barren(attempts) && TooManyFail(attempts, limit))
      && (WarmupAbort(w, limit).None? <==> !Barren(attempts) && !TooManyFail(attempts, limit))
  {
    var w := SummarizeWarmup(attempts, concurrency, planned, duration);
    StopsIff(attempts, w.succeeded, w.errorPercent, limit);
  }

  // ---- When a gate fails, and when it does not decide ----

  /** Enough were measured, and fewer than 95 of every hundred are at or below the threshold. */
  predicate LatencyMissed(attempts: seq<Attempt>, pick: Attempt -> Option<real>, threshold: Option<real>, minimumSamples: nat) {
    threshold.Some? &&
    var values := Measured(attempts, pick);
    |values| >= minimumSamples && 100 * D.CountAtMost(values, threshold.value) < 95 * |values|
  }

  predicate TooFewMeasured(attempts: seq<Attempt>, pick: Attempt -> Option<real>, threshold: Option<real>, minimumSamples: nat) {
    threshold.Some? && |Measured(attempts, pick)| < minimumSamples
  }

  predicate RateMissed(total: nat, threshold: Option<real>, durationNs: nat) {
    threshold.Some? && (total as real) < threshold.value * Seconds(durationNs)
  }

  /** What the attempts of a stage do against a policy. */
  ghost predicate Violates(attempts: seq<Attempt>, durationNs: nat, maxTokens: nat, p: Policy) {
    var succeeded := Succeeded(attempts);
    || succeeded == 0
    || !ErrorsMet(|attempts| - succeeded, |attempts|, p.maxErrorPercent)
    || LatencyMissed(attempts, TtftOf, p.maxP95TtftMs, p.minimumLatencySamples)
    || LatencyMissed(attempts, E2eOf, p.maxP95E2eMs, p.minimumLatencySamples)
    || RateMissed(succeeded, p.minSuccessfulRequestsPerSecond, durationNs)
    || (UsageComplete(attempts, maxTokens)
        && RateMissed(TokenSum(attempts, CompletionOf, maxTokens), p.minCompletionTokenGoodputPerSecond, durationNs))
  }

  /** What a policy asks for that the attempts leave open. */
  ghost predicate LeavesOpen(attempts: seq<Attempt>, maxTokens: nat, p: Policy) {
    var nothing := Succeeded(attempts) == 0;
    || (p.maxP95TtftMs.Some? && (nothing || TooFewMeasured(attempts, TtftOf, p.maxP95TtftMs, p.minimumLatencySamples)))
    || (p.maxP95E2eMs.Some? && (nothing || TooFewMeasured(attempts, E2eOf, p.maxP95E2eMs, p.minimumLatencySamples)))
    || (p.minCompletionTokenGoodputPerSecond.Some? && (nothing || !UsageComplete(attempts, maxTokens)))
  }

  lemma {:induction false} SomeGateAppend(a: seq<Gate>, b: seq<Gate>, status: GateStatus)
    ensures SomeGate(a + b, status) <==> SomeGate(a, status) || SomeGate(b, status)
  {
    if SomeGate(a, status) {
      var i :| 0 <= i < |a| && a[i].status == status;
      assert (a + b)[i].status == status;
    }
    if SomeGate(b, status) {
      var i :| 0 <= i < |b| && b[i].status == status;
      assert (a + b)[|a| + i].status == status;
    }
  }

  lemma {:induction false} SomeGateOfFive(a: seq<Gate>, b: seq<Gate>, c: seq<Gate>, d: seq<Gate>, e: seq<Gate>, status: GateStatus)
    ensures SomeGate(a + b + c + d + e, status)
       <==> SomeGate(a, status) || SomeGate(b, status) || SomeGate(c, status) || SomeGate(d, status) || SomeGate(e, status)
  {
    SomeGateAppend(a, b, status);
    SomeGateAppend(a + b, c, status);
    SomeGateAppend(a + b + c, d, status);
    SomeGateAppend(a + b + c + d, e, status);
  }

  lemma {:induction false} SomeGateOfOne(g: Gate, status: GateStatus)
    ensures SomeGate([g], status) <==> g.status == status
  {
    assert [g][0] == g;
  }

  lemma {:induction false} BaseGatesFail(s: Summary, p: Policy)
    ensures SomeGate(BaseGates(s, p), Fail) <==> s.succeeded == 0 || s.errorPercent > p.maxErrorPercent
    ensures !SomeGate(BaseGates(s, p), NotEvaluable)
  {
    var gates := BaseGates(s, p);
    assert gates[0].status == PassOrFail(s.succeeded > 0) && gates[1].status == PassOrFail(s.errorPercent <= p.maxErrorPercent);
  }

  /** The status of a latency gate, three ways. */
  lemma {:induction false} LatencyGateIs(kind: GateKind, attempts: seq<Attempt>, pick: Attempt -> Option<real>, threshold: real, minimumSamples: nat)
    requires 0 < minimumSamples && |attempts| <= U32_MAX
    ensures var g := LatencyGate(kind, D.DistributionOf(Measured(attempts, pick)), Succeeded(attempts), threshold, minimumSamples);
      && (g.status == NotEvaluable <==> Succeeded(attempts) == 0 || TooFewMeasured(attempts, pick, Some(threshold), minimumSamples))
      && (g.status == Fail <==> Succeeded(attempts) > 0 && LatencyMissed(attempts, pick, Some(threshold), minimumSamples))
  {
    var values := Measured(attempts, pick);
    LatencyGatePassesIff(kind, attempts, pick, threshold, minimumSamples);
    D.DistributionIs(values);
    D.CeilDivMeans(95 * |values|, D.CountAtMost(values, threshold));
  }

  lemma {:induction false} TtftGatesAre(s: Summary, attempts: seq<Attempt>, p: Policy)
    requires 0 < p.minimumLatencySamples && |attempts| <= U32_MAX && s.succeeded == Succeeded(attempts)
    requires s.ttftMs == D.DistributionOf(Measured(attempts, TtftOf))
    ensures SomeGate(TtftGates(s, p), Fail)
       <==> s.succeeded > 0 && LatencyMissed(attempts, TtftOf, p.maxP95TtftMs, p.minimumLatencySamples)
    ensures SomeGate(TtftGates(s, p), NotEvaluable)
       <==> p.maxP95TtftMs.Some? && (s.succeeded == 0 || TooFewMeasured(attempts, TtftOf, p.maxP95TtftMs, p.minimumLatencySamples))
  {
    if p.maxP95TtftMs.Some? {
      LatencyGateIs(P95Ttft, attempts, TtftOf, p.maxP95TtftMs.value, p.minimumLatencySamples);
      SomeGateOfOne(TtftGates(s, p)[0], Fail);
      SomeGateOfOne(TtftGates(s, p)[0], NotEvaluable);
    }
  }

  lemma {:induction false} E2eGatesAre(s: Summary, attempts: seq<Attempt>, p: Policy)
    requires 0 < p.minimumLatencySamples && |attempts| <= U32_MAX && s.succeeded == Succeeded(attempts)
    requires s.e2eMs == D.DistributionOf(Measured(attempts, E2eOf))
    ensures SomeGate(E2eGates(s, p), Fail)
       <==> s.succeeded > 0 && LatencyMissed(attempts, E2eOf, p.maxP95E2eMs, p.minimumLatencySamples)
    ensures SomeGate(E2eGates(s, p), NotEvaluable)
       <==> p.maxP95E2eMs.Some? && (s.succeeded == 0 || TooFewMeasured(attempts, E2eOf, p.maxP95E2eMs, p.minimumLatencySamples))
  {
    if p.maxP95E2eMs.Some? {
      LatencyGateIs(P95E2e, attempts, E2eOf, p.maxP95E2eMs.value, p.minimumLatencySamples);
      SomeGateOfOne(E2eGates(s, p)[0], Fail);
      SomeGateOfOne(E2eGates(s, p)[0], NotEvaluable);
    }
  }

  lemma {:induction false} RpsGatesAre(s: Summary, succeeded: nat, durationNs: nat, p: Policy)
    requires durationNs >= 1 && s.successfulRps == Rate(succeeded, durationNs)
    ensures SomeGate(RpsGates(s, p), Fail) <==> RateMissed(succeeded, p.minSuccessfulRequestsPerSecond, durationNs)
    ensures !SomeGate(RpsGates(s, p), NotEvaluable)
  {
    if p.minSuccessfulRequestsPerSecond.Some? {
      RateMetIff(succeeded, p.minSuccessfulRequestsPerSecond.value, durationNs);
      SomeGateOfOne(RpsGates(s, p)[0], Fail);
      SomeGateOfOne(RpsGates(s, p)[0], NotEvaluable);
    }
  }

  lemma {:induction false} GoodputGatesAre(s: Summary, tokens: nat, complete: bool, durationNs: nat, p: Policy)
    requires durationNs >= 1 && (s.completionUsageComplete <==> s.succeeded > 0 && complete)
    requires s.completionUsageComplete ==> s.completionGoodput == Some(Rate(tokens, durationNs))
    ensures SomeGate(GoodputGates(s, p), Fail)
       <==> s.succeeded > 0 && complete && RateMissed(tokens, p.minCompletionTokenGoodputPerSecond, durationNs)
    ensures SomeGate(GoodputGates(s, p), NotEvaluable)
       <==> p.minCompletionTokenGoodputPerSecond.Some? && (s.succeeded == 0 || !complete)
  {
    if p.minCompletionTokenGoodputPerSecond.Some? {
      RateMetIff(tokens, p.minCompletionTokenGoodputPerSecond.value, durationNs);
      SomeGateOfOne(GoodputGates(s, p)[0], Fail);
      SomeGateOfOne(GoodputGates(s, p)[0], NotEvaluable);
    }
  }

  lemma {:induction false} OptionalGatesAre(s: Summary, attempts: seq<Attempt>, durationNs: nat, maxTokens: nat, p: Policy)
    requires Summarizes(s, attempts, durationNs, maxTokens)
    requires |attempts| <= MAX_ATTEMPTS && durationNs >= 1 && p.minimumLatencySamples > 0
    ensures var latency := (pick: Attempt -> Option<real>, t: Option<real>) => LatencyMissed(attempts, pick, t, p.minimumLatencySamples);
      && (SomeGate(TtftGates(s, p), Fail) <==> s.succeeded > 0 && latency(TtftOf, p.maxP95TtftMs))
      && (SomeGate(E2eGates(s, p), Fail) <==> s.succeeded > 0 && latency(E2eOf, p.maxP95E2eMs))
      && (SomeGate(RpsGates(s, p), Fail) <==> RateMissed(Succeeded(attempts), p.minSuccessfulRequestsPerSecond, durationNs))
      && (SomeGate(GoodputGates(s, p), Fail)
          <==> s.succeeded > 0 && UsageComplete(attempts, maxTokens)
               && RateMissed(TokenSum(attempts, CompletionOf, maxTokens), p.minCompletionTokenGoodputPerSecond, durationNs))
    ensures (SomeGate(TtftGates(s, p), NotEvaluable) || SomeGate(E2eGates(s, p), NotEvaluable) || SomeGate(RpsGates(s, p), NotEvaluable)
             || SomeGate(GoodputGates(s, p), NotEvaluable))
       <==> LeavesOpen(attempts, maxTokens, p)
  {
    TtftGatesAre(s, attempts, p);
    E2eGatesAre(s, attempts, p);
    RpsGatesAre(s, Succeeded(attempts), durationNs, p);
    GoodputGatesAre(s, TokenSum(attempts, CompletionOf, maxTokens), UsageComplete(attempts, maxTokens), durationNs, p);
  }

  lemma {:induction false} BaseGatesAre(s: Summary, attempts: seq<Attempt>, p: Policy)
    requires s.succeeded == Succeeded(attempts) && s.errorPercent == ErrorPercent(|attempts| - Succeeded(attempts), |attempts|)
    ensures SomeGate(BaseGates(s, p), Fail) <==>
      Succeeded(attempts) == 0 || !ErrorsMet(|attempts| - Succeeded(attempts), |attempts|, p.maxErrorPercent)
    ensures !SomeGate(BaseGates(s, p), NotEvaluable)
  {
    BaseGatesFail(s, p);
    if Succeeded(attempts) > 0 { PercentMet(|attempts| - Succeeded(attempts), |attempts|, p.maxErrorPercent); }
  }

  lemma {:induction false} FailsIffViolates(s: Summary, attempts: seq<Attempt>, durationNs: nat, maxTokens: nat, p: Policy)
    requires Summarizes(s, attempts, durationNs, maxTokens)
    requires |attempts| <= MAX_ATTEMPTS && durationNs >= 1 && p.minimumLatencySamples > 0
    ensures SomeGate(GatesOf(s, p), Fail) <==> Violates(attempts, durationNs, maxTokens, p)
    ensures SomeGate(GatesOf(s, p), NotEvaluable) <==> LeavesOpen(attempts, maxTokens, p)
  {
    SomeGateOfFive(BaseGates(s, p), TtftGates(s, p), E2eGates(s, p), RpsGates(s, p), GoodputGates(s, p), Fail);
    SomeGateOfFive(BaseGates(s, p), TtftGates(s, p), E2eGates(s, p), RpsGates(s, p), GoodputGates(s, p), NotEvaluable);
    BaseGatesAre(s, attempts, p);
    OptionalGatesAre(s, attempts, durationNs, maxTokens, p);
  }

  /** Some gate of a stage fails iff its attempts violate the policy, and some gate does not decide iff
      they leave open what the policy asks for. */
  lemma {:induction false} StageFailsIff(attempts: seq<Attempt>, durationNs: nat, maxTokens: nat, p: Policy)
    requires |attempts| <= MAX_ATTEMPTS && maxTokens <= MAX_COMPLETION_TOKENS && durationNs >= 1 && p.minimumLatencySamples > 0
    ensures var gates := GatesOf(SummaryOf(attempts, durationNs, maxTokens), p);
      && (SomeGate(gates, Fail) <==> Violates(attempts, durationNs, maxTokens, p))
      && (SomeGate(gates, NotEvaluable) <==> LeavesOpen(attempts, maxTokens, p))
  {
    SummaryDoes(attempts, durationNs, maxTokens);
    FailsIffViolates(SummaryOf(attempts, durationNs, maxTokens), attempts, durationNs, maxTokens, p);
  }

  // ---- What a gate shows ----

  /** A gate gives a reason iff it does not decide; a gate that decides passes iff what it observed stands
      to its threshold as its operator says. */
  predicate IsSound(g: Gate) {
    && (g.status == NotEvaluable <==> g.reason.Some?)
    && (g.status == Pass ==> g.observed.Some?)
    && (g.status != NotEvaluable && g.observed.Some? ==>
          (g.status == Pass <==> if g.operator == AtLeast then g.observed.value >= g.threshold else g.observed.value <= g.threshold))
  }

  function P95Of(d: Option<D.Summary>): Option<real> { match d case None => None case Some(v) => Some(v.p95) }

  /** What a gate of each kind observes, and which setting asks for it. */
  predicate AsksFor(g: Gate, s: Summary, p: Policy) {
    match g.kind
    case SuccessfulRequests => g.operator == AtLeast && g.observed == Some(s.succeeded as real) && g.threshold == 1.0
    case ErrorRate => g.operator == NotAbove && g.observed == Some(s.errorPercent) && g.threshold == p.maxErrorPercent
    case P95Ttft => g.operator == NotAbove && g.observed == P95Of(s.ttftMs) && p.maxP95TtftMs == Some(g.threshold)
    case P95E2e => g.operator == NotAbove && g.observed == P95Of(s.e2eMs) && p.maxP95E2eMs == Some(g.threshold)
    case SuccessfulRps =>
      g.operator == AtLeast && g.observed == Some(s.successfulRps) && p.minSuccessfulRequestsPerSecond == Some(g.threshold)
    case CompletionGoodput =>
      g.operator == AtLeast && g.observed == s.completionGoodput && p.minCompletionTokenGoodputPerSecond == Some(g.threshold)
  }

  predicate HasKind(gates: seq<Gate>, kind: GateKind) { exists g | g in gates :: g.kind == kind }

  ghost predicate AllShow(gates: seq<Gate>, s: Summary, p: Policy) { forall g :: g in gates ==> IsSound(g) && AsksFor(g, s, p) }

  lemma {:induction false} BaseShow(s: Summary, p: Policy)
    ensures AllShow(BaseGates(s, p), s, p)
    ensures forall kind :: HasKind(BaseGates(s, p), kind) <==> kind == SuccessfulRequests || kind == ErrorRate
  {
    var gates := BaseGates(s, p);
    assert gates[0] in gates && gates[1] in gates;
  }

  lemma {:induction false} LatencyShows(kind: GateKind, d: Option<D.Summary>, succeeded: nat, threshold: real, minimumSamples: nat)
    requires 0 < minimumSamples
    ensures var g := LatencyGate(kind, d, succeeded, threshold, minimumSamples);
      IsSound(g) && g.kind == kind && g.operator == NotAbove && g.observed == P95Of(d) && g.threshold == threshold
  {
  }

  /** A list of one gate, or of none. */
  lemma {:induction false} OneShows(gates: seq<Gate>, s: Summary, p: Policy, kind: GateKind)
    requires |gates| <= 1 && (gates != [] ==> IsSound(gates[0]) && AsksFor(gates[0], s, p) && gates[0].kind == kind)
    ensures AllShow(gates, s, p) && forall k :: HasKind(gates, k) <==> gates != [] && k == kind
  {
    if gates != [] { assert gates[0] in gates; }
  }

  lemma {:induction false} OptionalShow(s: Summary, p: Policy)
    requires 0 < p.minimumLatencySamples
    ensures AllShow(TtftGates(s, p), s, p) && AllShow(E2eGates(s, p), s, p) && AllShow(RpsGates(s, p), s, p) && AllShow(GoodputGates(s, p), s, p)
    ensures forall k :: HasKind(TtftGates(s, p), k) <==> p.maxP95TtftMs.Some? && k == P95Ttft
    ensures forall k :: HasKind(E2eGates(s, p), k) <==> p.maxP95E2eMs.Some? && k == P95E2e
    ensures forall k :: HasKind(RpsGates(s, p), k) <==> p.minSuccessfulRequestsPerSecond.Some? && k == SuccessfulRps
    ensures forall k :: HasKind(GoodputGates(s, p), k) <==> p.minCompletionTokenGoodputPerSecond.Some? && k == CompletionGoodput
  {
    if p.maxP95TtftMs.Some? { LatencyShows(P95Ttft, s.ttftMs, s.succeeded, p.maxP95TtftMs.value, p.minimumLatencySamples); }
    if p.maxP95E2eMs.Some? { LatencyShows(P95E2e, s.e2eMs, s.succeeded, p.maxP95E2eMs.value, p.minimumLatencySamples); }
    OneShows(TtftGates(s, p), s, p, P95Ttft);
    OneShows(E2eGates(s, p), s, p, P95E2e);
    OneShows(RpsGates(s, p), s, p, SuccessfulRps);
    OneShows(GoodputGates(s, p), s, p, CompletionGoodput);
  }

  lemma {:induction false} AppendShows(a: seq<Gate>, b: seq<Gate>, s: Summary, p: Policy)
    requires AllShow(a, s, p) && AllShow(b, s, p)
    ensures AllShow(a + b, s, p) && forall k :: HasKind(a + b, k) <==> HasKind(a, k) || HasKind(b, k)
  {
    forall g ensures g in a + b <==> g in a || g in b {}
  }

  /** The setting that a kind of gate needs is there. */
  predicate IsAskedFor(kind: GateKind, p: Policy) {
    match kind
    case SuccessfulRequests => true
    case ErrorRate => true
    case P95Ttft => p.maxP95TtftMs.Some?
    case P95E2e => p.maxP95E2eMs.Some?
    case SuccessfulRps => p.minSuccessfulRequestsPerSecond.Some?
    case CompletionGoodput => p.minCompletionTokenGoodputPerSecond.Some?
  }

  /** Every gate is sound and asks for what its kind says, and there is one of a kind iff it is asked for. */
  lemma {:induction false} GatesShow(s: Summary, p: Policy)
    requires 0 < p.minimumLatencySamples
    ensures AllShow(GatesOf(s, p), s, p)
    ensures forall kind :: HasKind(GatesOf(s, p), kind) <==> IsAskedFor(kind, p)
  {
    BaseShow(s, p);
    OptionalShow(s, p);
    var base, ttft, e2e, rps, goodput := BaseGates(s, p), TtftGates(s, p), E2eGates(s, p), RpsGates(s, p), GoodputGates(s, p);
    AppendShows(base, ttft, s, p);
    AppendShows(base + ttft, e2e, s, p);
    AppendShows(base + ttft + e2e, rps, s, p);
    AppendShows(base + ttft + e2e + rps, goodput, s, p);
  }
}
