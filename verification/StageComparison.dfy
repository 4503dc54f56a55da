/** What the comparison of two stages says of the attempts behind them, multiplied out. */
module StageComparison {
  import opened Common
  import A = Admission
  import opened Attempts
  import D = Distribution
  import G = StageSummary
  import L = Ladder
  import V = StageVerdict
  import opened SaturationCompare

  /** At most the limit, give or take a billionth of the value, of the limit or of the unit both are
      measured in. */
  predicate NearlyAtMost(value: real, limit: real, unit: real) {
    var excess := (value - limit) * 1_000_000_000.0;
    excess <= value || excess <= -value || excess <= limit || excess <= -limit || excess <= unit
  }

  lemma {:induction false} Scaled(a: real, b: real, k: real)
    requires k > 0.0
    ensures a <= b <==> a * k <= b * k
  {
    if a <= b { assert a * k <= b * k; }
    if a > b { assert a * k > b * k; }
  }

  lemma {:induction false} NearlyScaled(value: real, limit: real, k: real)
    requires k > 0.0
    ensures NearlyAtMost(value, limit, 1.0) <==> NearlyAtMost(value * k, limit * k, k)
  {
    var excess := (value - limit) * 1_000_000_000.0;
    assert excess * k == (value * k - limit * k) * 1_000_000_000.0;
    Scaled(excess, value, k);
    Scaled(excess, -value, k);
    Scaled(excess, limit, k);
    Scaled(excess, -limit, k);
    Scaled(excess, 1.0, k);
    assert (-value) * k == -(value * k) && (-limit) * k == -(limit * k);
  }

  /** The tolerance is that billionth, for ceilings and for floors. */
  lemma {:induction false} ToleranceMeans(observed: real, threshold: real)
    ensures NotAbove(observed, threshold) <==> NearlyAtMost(observed, threshold, 1.0)
    ensures AtLeast(observed, threshold) <==> NearlyAtMost(threshold, observed, 1.0)
  {
  }

  lemma {:induction false} CeilingScaled(observed: real, threshold: real, value: real, limit: real, k: real)
    requires k > 0.0 && value == observed * k && limit == threshold * k
    ensures NotAbove(observed, threshold) <==> NearlyAtMost(value, limit, k)
  {
    ToleranceMeans(observed, threshold);
    NearlyScaled(observed, threshold, k);
  }

  lemma {:induction false} FloorScaled(observed: real, threshold: real, value: real, limit: real, k: real)
    requires k > 0.0 && value == observed * k && limit == threshold * k
    ensures AtLeast(observed, threshold) <==> NearlyAtMost(limit, value, k)
  {
    ToleranceMeans(observed, threshold);
    NearlyScaled(threshold, observed, k);
  }

  // ---- What is asked of two stages ----

  ghost function Failed(s: L.Stage): nat { |Where(s.attempts, (a: Attempt) => !a.success)| }

  ghost function Answered(s: L.Stage): nat { |Where(s.attempts, (a: Attempt) => a.success)| }

  /** Both sides made at least twenty attempts. */
  predicate Enough(b: L.Stage, c: L.Stage) { |b.attempts| >= 20 && |c.attempts| >= 20 }

  /** The candidate's share of failures, in percent, is at most the baseline's and the points. */
  predicate ShareWithin(failed: real, attempted: real, laterFailed: real, laterAttempted: real, points: real) {
    var unit := attempted * laterAttempted;
    NearlyAtMost((laterFailed * attempted - failed * laterAttempted) * 100.0, points * unit, unit)
  }

  ghost predicate ErrorsWithin(b: L.Stage, c: L.Stage, points: real) {
    ShareWithin(Failed(b) as real, |b.attempts| as real, Failed(c) as real, |c.attempts| as real, points)
  }

  ghost predicate RatesComparable(b: L.Stage, c: L.Stage) { Enough(b, c) && Answered(b) > 0 }

  /** A total over the candidate's duration is at least the ratio times one over the baseline's. */
  predicate RateKept(before: nat, beforeNs: nat, after: nat, afterNs: nat, ratio: real) {
    var unit := before as real * afterNs as real;
    NearlyAtMost(ratio * unit, after as real * beforeNs as real, unit)
  }

  ghost predicate RateWithin(b: L.Stage, c: L.Stage, ratio: real) {
    RateKept(Answered(b), b.durationNs, Answered(c), c.durationNs, ratio)
  }

  /** Every success of either side reports its tokens, and there are at least twenty on each. */
  ghost predicate TokensComparable(b: L.Stage, c: L.Stage, maxTokens: nat) {
    && Answered(b) >= 20 && Answered(c) >= 20
    && V.UsageComplete(b.attempts, maxTokens) && V.UsageComplete(c.attempts, maxTokens)
  }

  ghost predicate GoodputWithin(b: L.Stage, c: L.Stage, maxTokens: nat, ratio: real) {
    RateKept(G.TokenSum(b.attempts, G.CompletionOf, maxTokens), b.durationNs,
             G.TokenSum(c.attempts, G.CompletionOf, maxTokens), c.durationNs, ratio)
  }

  /** The 95th percentiles of enough measurements on either side, the earlier one not zero. */
  ghost predicate Percentiles(before: seq<real>, after: seq<real>, minimum: nat, x: real, y: real) {
    |before| >= minimum && |after| >= minimum && D.IsPercentile(before, 95, x) && D.IsPercentile(after, 95, y) && x > 0.0
  }

  ghost predicate SomePercentiles(before: seq<real>, after: seq<real>, minimum: nat) { exists x, y :: Percentiles(before, after, minimum, x, y) }

  /** The candidate's percentile is above the baseline's by at most so many percent. */
  ghost predicate PercentilesWithin(before: seq<real>, after: seq<real>, minimum: nat, percent: real) {
    forall x, y :: Percentiles(before, after, minimum, x, y) ==> NearlyAtMost((y - x) * 100.0, percent * x, x)
  }

  ghost predicate LatencyComparable(b: L.Stage, c: L.Stage, pick: Attempt -> Option<real>) {
    SomePercentiles(G.Measured(b.attempts, pick), G.Measured(c.attempts, pick), 20)
  }

  ghost predicate LatencyWithin(b: L.Stage, c: L.Stage, pick: Attempt -> Option<real>, percent: real) {
    PercentilesWithin(G.Measured(b.attempts, pick), G.Measured(c.attempts, pick), 20, percent)
  }

  /** Every configured comparison can be made and holds. */
  ghost predicate KeepsUp(b: L.Stage, c: L.Stage, maxTokens: nat, p: Policy) {
    && (p.maxP95TtftRegressionPercent.Some? ==>
          LatencyComparable(b, c, G.TtftOf) && LatencyWithin(b, c, G.TtftOf, p.maxP95TtftRegressionPercent.value))
    && (p.maxP95E2eRegressionPercent.Some? ==>
          LatencyComparable(b, c, G.E2eOf) && LatencyWithin(b, c, G.E2eOf, p.maxP95E2eRegressionPercent.value))
    && (p.minRpsRatio.Some? ==> RatesComparable(b, c) && RateWithin(b, c, p.minRpsRatio.value))
    && (p.minGoodputRatio.Some? ==> TokensComparable(b, c, maxTokens) && GoodputWithin(b, c, maxTokens, p.minGoodputRatio.value))
    && (p.maxErrorIncreasePoints.Some? ==> Enough(b, c) && ErrorsWithin(b, c, p.maxErrorIncreasePoints.value))
  }

  /** Some configured comparison can be made and does not hold. */
  ghost predicate FallsBehind(b: L.Stage, c: L.Stage, maxTokens: nat, p: Policy) {
    || (p.maxP95TtftRegressionPercent.Some?
        && LatencyComparable(b, c, G.TtftOf) && !LatencyWithin(b, c, G.TtftOf, p.maxP95TtftRegressionPercent.value))
    || (p.maxP95E2eRegressionPercent.Some?
        && LatencyComparable(b, c, G.E2eOf) && !LatencyWithin(b, c, G.E2eOf, p.maxP95E2eRegressionPercent.value))
    || (p.minRpsRatio.Some? && RatesComparable(b, c) && !RateWithin(b, c, p.minRpsRatio.value))
    || (p.minGoodputRatio.Some? && TokensComparable(b, c, maxTokens) && !GoodputWithin(b, c, maxTokens, p.minGoodputRatio.value))
    || (p.maxErrorIncreasePoints.Some? && Enough(b, c) && !ErrorsWithin(b, c, p.maxErrorIncreasePoints.value))
  }

  // ---- What the evidence of a stage tells of its attempts ----

  /** The summary of the stage is that of its attempts. */
  ghost predicate Honest(s: L.Stage, maxTokens: nat) {
    && s.durationNs >= 1 && |s.attempts| <= A.MAX_ATTEMPTS && maxTokens <= A.MAX_COMPLETION_TOKENS
    && s.summary == G.SummaryOf(s.attempts, s.durationNs, maxTokens)
  }

  /** The share of failed attempts in percent: times the attempts it gives back the failures. */
  predicate IsShare(percent: real, failed: real, attempted: real) { attempted > 0.0 ==> percent * attempted == failed * 100.0 }

  ghost predicate Counted(e: Evidence, s: L.Stage) {
    && e.attempted == |s.attempts| && e.succeeded == Answered(s)
    && IsShare(e.errorPercent, Failed(s) as real, |s.attempts| as real) && V.IsRate(e.rps, Answered(s), s.durationNs)
  }

  lemma {:induction false} ShareTimes(failed: nat, attempted: nat)
    ensures IsShare(G.ErrorPercent(failed, attempted), failed as real, attempted as real)
  {
  }

  lemma {:induction false} SummaryCounts(attempts: seq<Attempt>, durationNs: nat, maxTokens: nat)
    requires |attempts| <= A.MAX_ATTEMPTS && maxTokens <= A.MAX_COMPLETION_TOKENS
    ensures var s := G.SummaryOf(attempts, durationNs, maxTokens);
      && s.attempted == |attempts| && s.succeeded == G.Succeeded(attempts)
      && s.errorPercent == G.ErrorPercent(|attempts| - G.Succeeded(attempts), |attempts|)
      && s.successfulRps == G.Rate(G.Succeeded(attempts), durationNs)
  {
    G.TokenTotalsAreExact(attempts, durationNs, maxTokens);
  }

  lemma {:induction false} CountedFrom(e: Evidence, s: L.Stage, succeeded: nat, failed: nat)
    requires s.durationNs >= 1 && e.attempted == |s.attempts| && e.succeeded == succeeded == Answered(s) && failed == Failed(s)
    requires e.errorPercent == G.ErrorPercent(failed, |s.attempts|) && e.rps == G.Rate(succeeded, s.durationNs)
    ensures Counted(e, s)
  {
    V.RateTimes(succeeded, s.durationNs);
    ShareTimes(failed, |s.attempts|);
  }

  lemma {:induction false} IsCounted(s: L.Stage, maxTokens: nat)
    requires Honest(s, maxTokens)
    ensures Counted(EvidenceOf(s), s)
  {
    SummaryCounts(s.attempts, s.durationNs, maxTokens);
    V.SucceededAre(s.attempts);
    V.FailedAre(s.attempts);
    CountedFrom(EvidenceOf(s), s, G.Succeeded(s.attempts), |s.attempts| - G.Succeeded(s.attempts));
  }

  // ---- Gate by gate ----

  /** An observation says whether two stages can be compared, and whether they are within a limit. */
  predicate Says(o: Observation, holds: bool, comparable: bool, within: bool) {
    (o.Observed? <==> comparable) && (comparable ==> (holds <==> within))
  }

  lemma {:induction false} SharesTimes(f: real, g: real, m: real, n: real, x: real, y: real, value: real, unit: real)
    requires x * m == f * 100.0 && y * n == g * 100.0 && value == (g * m - f * n) * 100.0 && unit == m * n
    ensures (y - x) * unit == value
  {
    assert (y - x) * (m * n) == y * n * m - x * m * n;
  }

  lemma {:induction false} PositiveProduct(m: real, n: real)
    requires m > 0.0 && n > 0.0
    ensures m * n > 0.0
  {
  }

  lemma {:induction false} ShareScaled(f: real, g: real, m: real, n: real, x: real, y: real, points: real, value: real, limit: real, unit: real)
    requires m > 0.0 && n > 0.0 && x * m == f * 100.0 && y * n == g * 100.0
    requires value == (g * m - f * n) * 100.0 && unit == m * n && limit == points * unit
    ensures NotAbove(y - x, points) <==> NearlyAtMost(value, limit, unit)
  {
    PositiveProduct(m, n);
    SharesTimes(f, g, m, n, x, y, value, unit);
    CeilingScaled(y - x, points, value, limit, unit);
  }

  lemma {:induction false} ShareSays(f: real, m: real, g: real, n: real, x: real, y: real, points: real)
    requires m > 0.0 && n > 0.0 && IsShare(x, f, m) && IsShare(y, g, n)
    ensures NotAbove(y - x, points) <==> ShareWithin(f, m, g, n, points)
  {
    ShareScaled(f, g, m, n, x, y, points, (g * m - f * n) * 100.0, points * (m * n), m * n);
  }

  lemma {:induction false} ErrorsSay(b: L.Stage, c: L.Stage, x: Evidence, y: Evidence, points: real)
    requires Counted(x, b) && Counted(y, c)
    ensures var o := ErrorIncreaseOf(x, y); Says(o, o.Observed? && NotAbove(o.value, points), Enough(b, c), ErrorsWithin(b, c, points))
  {
    if Enough(b, c) {
      ShareSays(Failed(b) as real, |b.attempts| as real, Failed(c) as real, |c.attempts| as real, x.errorPercent, y.errorPercent, points);
    }
  }

  lemma {:induction false} RatioTimes(before: nat, beforeNs: nat, after: nat, afterNs: nat, x: real, y: real)
    requires before > 0 && beforeNs > 0 && V.IsRate(x, before, beforeNs) && V.IsRate(y, after, afterNs)
    ensures x > 0.0
    ensures y / x * (before as real * afterNs as real) == after as real * beforeNs as real
  {
    var s, t := V.Seconds(beforeNs), V.Seconds(afterNs);
    PositiveFactor(x, s);
    QuotientTimes(x, y, s, t);
    assert y / x * (before as real * t) == after as real * s;
    assert y / x * (before as real * (t * 1_000_000_000.0)) == y / x * (before as real * t) * 1_000_000_000.0;
  }

  lemma {:induction false} PositiveFactor(x: real, s: real)
    requires s > 0.0 && x * s > 0.0
    ensures x > 0.0
  {
    assert x <= 0.0 ==> x * s <= 0.0;
  }

  lemma {:induction false} QuotientTimes(x: real, y: real, s: real, t: real)
    requires x > 0.0
    ensures y / x * (x * s * t) == y * t * s
  {
    var q := y / x;
    assert q * x == y;
    assert q * (x * s * t) == q * x * s * t;
  }

  lemma {:induction false} RateSays(before: nat, beforeNs: nat, after: nat, afterNs: nat, x: real, y: real, ratio: real)
    requires before > 0 && beforeNs > 0 && afterNs > 0 && V.IsRate(x, before, beforeNs) && V.IsRate(y, after, afterNs)
    ensures x > 0.0
    ensures AtLeast(y / x, ratio) <==> RateKept(before, beforeNs, after, afterNs, ratio)
  {
    RatioTimes(before, beforeNs, after, afterNs, x, y);
    PositiveProduct(before as real, afterNs as real);
    FloorScaled(y / x, ratio, after as real * beforeNs as real, ratio * (before as real * afterNs as real), before as real * afterNs as real);
  }

  lemma {:induction false} RatesSay(b: L.Stage, c: L.Stage, x: Evidence, y: Evidence, ratio: real)
    requires Counted(x, b) && Counted(y, c) && b.durationNs >= 1 && c.durationNs >= 1
    ensures var o := RpsRatioOf(x, y); Says(o, o.Observed? && AtLeast(o.value, ratio), RatesComparable(b, c), RateWithin(b, c, ratio))
  {
    if RatesComparable(b, c) { RateSays(Answered(b), b.durationNs, Answered(c), c.durationNs, x.rps, y.rps, ratio); }
  }

  /** What the evidence knows of the tokens of a stage. */
  ghost predicate TokensCounted(e: Evidence, s: L.Stage, maxTokens: nat) {
    && (e.usageComplete <==> Answered(s) > 0 && V.UsageComplete(s.attempts, maxTokens))
    && (e.usageComplete ==> e.tokenSamples == Answered(s))
    && (e.goodput.Some? <==> e.usageComplete)
    && (e.goodput.Some? ==> V.IsRate(e.goodput.value, G.TokenSum(s.attempts, G.CompletionOf, maxTokens), s.durationNs))
  }

  lemma {:induction false} TokensAreCounted(s: L.Stage, maxTokens: nat)
    requires Honest(s, maxTokens)
    ensures TokensCounted(EvidenceOf(s), s, maxTokens)
  {
    V.SucceededAre(s.attempts);
    V.RatesGiveBackTotals(s.attempts, s.durationNs, maxTokens);
    V.SamplesComplete(s.attempts, G.CompletionOf, maxTokens);
  }

  /** As every report counts at least one token, there are no fewer tokens than reports. */
  lemma {:induction false} TokensAtLeastReports(attempts: seq<Attempt>, pick: Attempt -> Option<nat>, most: nat)
    ensures G.TokenSum(attempts, pick, most) >= G.TokenSamples(attempts, pick, most)
  {
    if attempts != [] { TokensAtLeastReports(attempts[..|attempts| - 1], pick, most); }
  }

  lemma {:induction false} SomeTokens(s: L.Stage, maxTokens: nat)
    requires Answered(s) > 0 && V.UsageComplete(s.attempts, maxTokens)
    ensures G.TokenSum(s.attempts, G.CompletionOf, maxTokens) > 0
  {
    V.SucceededAre(s.attempts);
    V.SamplesComplete(s.attempts, G.CompletionOf, maxTokens);
    TokensAtLeastReports(s.attempts, G.CompletionOf, maxTokens);
  }

  lemma {:induction false} GoodputSays(b: L.Stage, c: L.Stage, maxTokens: nat, x: Evidence, y: Evidence, ratio: real)
    requires Counted(x, b) && Counted(y, c) && b.durationNs >= 1 && c.durationNs >= 1
    requires TokensCounted(x, b, maxTokens) && TokensCounted(y, c, maxTokens)
    ensures var o := GoodputRatioOf(x, y);
      Says(o, o.Observed? && AtLeast(o.value, ratio), TokensComparable(b, c, maxTokens), GoodputWithin(b, c, maxTokens, ratio))
  {
    if TokensComparable(b, c, maxTokens) {
      SomeTokens(b, maxTokens);
      RateSays(G.TokenSum(b.attempts, G.CompletionOf, maxTokens), b.durationNs, G.TokenSum(c.attempts, G.CompletionOf, maxTokens),
               c.durationNs, x.goodput.value, y.goodput.value, ratio);
    }
  }

  // ---- Latency ----

  lemma {:induction false} MeasuredWithinAnswered(attempts: seq<Attempt>, pick: Attempt -> Option<real>)
    ensures |G.Measured(attempts, pick)| <= G.Succeeded(attempts)
  {
    if attempts != [] { MeasuredWithinAnswered(attempts[..|attempts| - 1], pick); }
  }

  /** The percentile the evidence carries is that of the measurements. */
  ghost predicate Timed(p95: Option<real>, samples: nat, values: seq<real>) {
    samples == |values| && (p95.Some? <==> values != []) && (p95.Some? ==> D.IsPercentile(values, 95, p95.value))
  }

  lemma {:induction false} IsTimed(d: Option<D.Summary>, values: seq<real>)
    requires |values| <= A.MAX_ATTEMPTS && d == D.DistributionOf(values)
    ensures Timed(match d case None => None case Some(v) => Some(v.p95), match d case None => 0 case Some(v) => G.Clip(v.samples), values)
  {
    D.DistributionIs(values);
  }

  lemma {:induction false} RiseTimes(x: real, y: real)
    requires x > 0.0
    ensures (y / x - 1.0) * 100.0 * x == (y - x) * 100.0
  {
    var q := y / x;
    assert q * x == y;
    assert (q - 1.0) * 100.0 * x == (q * x - x) * 100.0;
  }

  /** The percentiles are the ones of the evidence. */
  lemma {:induction false} OnlyPercentiles(before: seq<real>, after: seq<real>, minimum: nat, x: real, y: real, u: real, v: real)
    requires D.IsPercentile(before, 95, x) && D.IsPercentile(after, 95, y)
    ensures Percentiles(before, after, minimum, u, v) ==> u == x && v == y
  {
    if Percentiles(before, after, minimum, u, v) {
      D.PercentileIsUnique(before, 95, x, u);
      D.PercentileIsUnique(after, 95, y, v);
    }
  }

  lemma {:induction false} RiseCompares(x: real, y: real, percent: real)
    requires x > 0.0
    ensures NotAbove((y / x - 1.0) * 100.0, percent) <==> NearlyAtMost((y - x) * 100.0, percent * x, x)
  {
    RiseTimes(x, y);
    CeilingScaled((y / x - 1.0) * 100.0, percent, (y - x) * 100.0, percent * x, x);
  }

  lemma {:induction false} PercentilesSay(before: seq<real>, after: seq<real>, minimum: nat, x: real, y: real, percent: real)
    requires D.IsPercentile(before, 95, x) && D.IsPercentile(after, 95, y)
    ensures SomePercentiles(before, after, minimum) <==> |before| >= minimum && |after| >= minimum && x > 0.0
    ensures SomePercentiles(before, after, minimum) ==> (PercentilesWithin(before, after, minimum, percent) <==> NearlyAtMost((y - x) * 100.0, percent * x, x))
  {
    forall u, v ensures Percentiles(before, after, minimum, u, v) ==> u == x && v == y { OnlyPercentiles(before, after, minimum, x, y, u, v); }
    if |before| >= minimum && |after| >= minimum && x > 0.0 { assert Percentiles(before, after, minimum, x, y); }
  }

  /** The percentage is compared once both percentiles are there. */
  lemma {:induction false} RegressionSays(
    x: Evidence, y: Evidence, before: Option<real>, after: Option<real>, beforeSamples: nat, afterSamples: nat,
    m: seq<real>, n: seq<real>, percent: real)
    requires Timed(before, beforeSamples, m) && Timed(after, afterSamples, n) && |m| <= x.succeeded && |n| <= y.succeeded
    ensures var o := LatencyRegression(x, y, before, after, beforeSamples, afterSamples);
      Says(o, o.Observed? && NotAbove(o.value, percent), SomePercentiles(m, n, 20), PercentilesWithin(m, n, 20, percent))
  {
    if before.Some? && after.Some? {
      RegressionObserved(x, y, before.value, after.value, m, n);
      if SomePercentiles(m, n, 20) { RiseSays(before.value, after.value, m, n, percent); }
    }
  }

  lemma {:induction false} RegressionObserved(x: Evidence, y: Evidence, u: real, v: real, m: seq<real>, n: seq<real>)
    requires D.IsPercentile(m, 95, u) && D.IsPercentile(n, 95, v) && |m| <= x.succeeded && |n| <= y.succeeded
    ensures SomePercentiles(m, n, 20) <==> LatencyRegression(x, y, Some(u), Some(v), |m|, |n|).Observed?
    ensures SomePercentiles(m, n, 20) ==> u > 0.0 && LatencyRegression(x, y, Some(u), Some(v), |m|, |n|).value == (v / u - 1.0) * 100.0
  {
    PercentilesSay(m, n, 20, u, v, 0.0);
  }

  lemma {:induction false} RiseSays(u: real, v: real, m: seq<real>, n: seq<real>, percent: real)
    requires D.IsPercentile(m, 95, u) && D.IsPercentile(n, 95, v) && SomePercentiles(m, n, 20) && u > 0.0
    ensures NotAbove((v / u - 1.0) * 100.0, percent) <==> PercentilesWithin(m, n, 20, percent)
  {
    PercentilesSay(m, n, 20, u, v, percent);
    RiseCompares(u, v, percent);
  }

  lemma {:induction false} LatencySays(
    b: L.Stage, c: L.Stage, pick: Attempt -> Option<real>, x: Evidence, y: Evidence,
    before: Option<real>, after: Option<real>, beforeSamples: nat, afterSamples: nat, percent: real)
    requires Counted(x, b) && Counted(y, c)
    requires Timed(before, beforeSamples, G.Measured(b.attempts, pick)) && Timed(after, afterSamples, G.Measured(c.attempts, pick))
    ensures var o := LatencyRegression(x, y, before, after, beforeSamples, afterSamples);
      Says(o, o.Observed? && NotAbove(o.value, percent), LatencyComparable(b, c, pick), LatencyWithin(b, c, pick, percent))
  {
    MeasuredWithinAnswered(b.attempts, pick);
    MeasuredWithinAnswered(c.attempts, pick);
    V.SucceededAre(b.attempts);
    V.SucceededAre(c.attempts);
    RegressionSays(x, y, before, after, beforeSamples, afterSamples, G.Measured(b.attempts, pick), G.Measured(c.attempts, pick), percent);
  }
}
