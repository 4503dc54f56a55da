/** What the saturation signal says of the attempts behind the stages, multiplied out. */
module SignalVerdict {
  import opened Common
  import opened Admission
  import opened Attempts
  import opened Assessment
  import C = StageComparison
  import D = Distribution
  import G = StageSummary
  import opened Ladder
  import LV = LadderVerdict
  import PA = ProducerAccepted
  import S = SavedReport
  import V = StageVerdict

  // ---- From one stage to the next ----

  /** The successes of an earlier and of a later stage, each over the duration of the other one. */
  ghost function Before(b: Stage, c: Stage): real { C.Answered(b) as real * c.durationNs as real }

  ghost function After(b: Stage, c: Stage): real { C.Answered(c) as real * b.durationNs as real }

  /** The relative gain in throughput is at most so many percent of the relative gain in concurrency. */
  ghost predicate Plateaus(b: Stage, c: Stage, most: real) {
    && C.Answered(b) > 0
    && (After(b, c) - Before(b, c)) * b.concurrency as real * 100.0 <= most * ((c.concurrency - b.concurrency) as real * Before(b, c))
  }

  ghost predicate TooManyErrors(c: Stage, p: Policy) { C.Failed(c) as real * 100.0 > p.maxErrorPercent * |c.attempts| as real }

  ghost predicate Comparable(b: Stage, c: Stage, pick: Attempt -> Option<real>, p: Policy) {
    C.SomePercentiles(G.Measured(b.attempts, pick), G.Measured(c.attempts, pick), p.minimumLatencySamples)
  }

  /** The 95th percentile of the later stage is above that of the earlier one by at least the limit. */
  ghost predicate Inflates(b: Stage, c: Stage, pick: Attempt -> Option<real>, p: Policy) {
    exists x, y :: C.Percentiles(G.Measured(b.attempts, pick), G.Measured(c.attempts, pick), p.minimumLatencySamples, x, y)
                   && (y - x) * 100.0 >= p.signalMinP95LatencyInflationPercent * x
  }

  /** A plateau with too many errors or with inflated latency. */
  ghost predicate Signals(b: Stage, c: Stage, p: Policy) {
    && Plateaus(b, c, p.signalMaxMarginalScalingEfficiencyPercent)
    && (TooManyErrors(c, p) || Inflates(b, c, G.TtftOf, p) || Inflates(b, c, G.E2eOf, p))
  }

  /** Nothing to measure a gain against, or a plateau without errors whose latencies cannot be compared. */
  ghost predicate Undecided(b: Stage, c: Stage, p: Policy) {
    || C.Answered(b) == 0
    || (Plateaus(b, c, p.signalMaxMarginalScalingEfficiencyPercent) && !TooManyErrors(c, p)
        && !Comparable(b, c, G.TtftOf, p) && !Comparable(b, c, G.E2eOf, p))
  }

  /** A gain in percent: times the unit it is relative to. */
  predicate IsGain(gain: Option<real>, comparable: bool, rise: real, unit: real) {
    (gain.Some? <==> comparable) && (gain.Some? ==> gain.value * unit == rise * 100.0)
  }

  ghost predicate IsInflation(gain: Option<real>, before: seq<real>, after: seq<real>, minimum: nat) {
    && (gain.Some? <==> C.SomePercentiles(before, after, minimum))
    && forall x, y :: C.Percentiles(before, after, minimum, x, y) && gain.Some? ==> gain.value * x == (y - x) * 100.0
  }

  /** Throughput and concurrency of one step, each figure times what it is relative to. */
  ghost predicate GainsAre(e: Evidence, a: Stage, b: Stage, c: Stage) {
    && IsGain(e.rpsGain, C.Answered(b) > 0, After(b, c) - Before(b, c), Before(b, c))
    && IsGain(e.marginalEfficiency, C.Answered(b) > 0,
              (After(b, c) - Before(b, c)) * b.concurrency as real, (c.concurrency - b.concurrency) as real * Before(b, c))
    && IsGain(e.scalingEfficiency, C.Answered(a) > 0, After(a, c) * a.concurrency as real, Before(a, c) * c.concurrency as real)
  }

  ghost predicate InflationsAre(e: Evidence, b: Stage, c: Stage, minimum: nat) {
    && IsInflation(e.ttftInflation, G.Measured(b.attempts, G.TtftOf), G.Measured(c.attempts, G.TtftOf), minimum)
    && IsInflation(e.e2eInflation, G.Measured(b.attempts, G.E2eOf), G.Measured(c.attempts, G.E2eOf), minimum)
  }

  ghost predicate IsEvidence(e: Evidence, a: Stage, b: Stage, c: Stage, minimum: nat) {
    && e.baseline == a.concurrency && e.previous == b.concurrency && e.concurrency == c.concurrency
    && GainsAre(e, a, b, c) && InflationsAre(e, b, c, minimum)
  }

  // ---- Figure by figure ----

  lemma {:induction false} GainTimes(before: nat, beforeNs: nat, after: nat, afterNs: nat, x: real, y: real)
    requires beforeNs > 0 && afterNs > 0 && V.IsRate(x, before, beforeNs) && V.IsRate(y, after, afterNs)
    ensures x > 0.0 <==> before > 0
    ensures var u, v := before as real * afterNs as real, after as real * beforeNs as real;
      IsGain(PercentChange(x, y), before > 0, v - u, u)
  {
    if before > 0 {
      C.RatioTimes(before, beforeNs, after, afterNs, x, y);
      LessOne(y / x, before as real * afterNs as real, after as real * beforeNs as real);
    } else {
      assert x > 0.0 ==> x * V.Seconds(beforeNs) > 0.0;
    }
  }

  lemma {:induction false} LessOne(q: real, u: real, v: real)
    requires q * u == v
    ensures (q - 1.0) * 100.0 * u == (v - u) * 100.0
  {
  }

  lemma {:induction false} EfficiencyTimes(rps: real, u: real, rise: real, c: real, d: real)
    requires 0.0 < c < d && rps * u == rise * 100.0
    ensures PercentChange(c, d).Some? && PercentChange(c, d).value > 0.0
    ensures rps / PercentChange(c, d).value * 100.0 * ((d - c) * u) == rise * c * 100.0
  {
    var width := PercentChange(c, d).value;
    LV.GainTimes(c, d, width);
    var q := rps / width;
    assert q * width == rps;
    Regroup(q, width, c, d, rps, u, rise);
  }

  lemma {:induction false} Regroup(q: real, width: real, c: real, d: real, rps: real, u: real, rise: real)
    requires q * width == rps && width * c == (d - c) * 100.0 && rps * u == rise * 100.0
    ensures q * 100.0 * ((d - c) * u) == rise * c * 100.0
  {
    assert q * 100.0 * ((d - c) * u) == q * ((d - c) * 100.0) * u;
    assert q * (width * c) * u == q * width * c * u;
    assert rps * c * u == rps * u * c;
  }

  lemma {:induction false} MarginalIs(b: Stage, c: Stage, u: real, rise: real)
    requires 0 < b.concurrency < c.concurrency && (b.summary.successfulRps > 0.0 <==> C.Answered(b) > 0)
    requires IsGain(PercentChange(b.summary.successfulRps, c.summary.successfulRps), C.Answered(b) > 0, rise, u)
    ensures IsGain(MarginalEfficiency(b, c), C.Answered(b) > 0, rise * b.concurrency as real, (c.concurrency - b.concurrency) as real * u)
  {
    if C.Answered(b) > 0 {
      EfficiencyTimes(PercentChange(b.summary.successfulRps, c.summary.successfulRps).value, u, rise, b.concurrency as real, c.concurrency as real);
    } else {
      assert MarginalEfficiency(b, c).None?;
    }
  }

  lemma {:induction false} ScalingTimes(r: real, u: real, v: real, c: real, d: real)
    requires r * u == v && c > 0.0 && d > 0.0
    ensures d / c > 0.0 && r / (d / c) * 100.0 * (u * d) == v * c * 100.0
  {
    var w := d / c;
    assert w * c == d;
    assert w <= 0.0 ==> w * c <= 0.0;
    var q := r / w;
    assert q * w == r;
    assert q * 100.0 * (u * d) == q * d * u * 100.0;
    assert q * d == q * w * c == r * c;
    assert r * c * u == v * c;
  }

  lemma {:induction false} ScalingIs(a: Stage, c: Stage)
    requires a.concurrency > 0 && c.concurrency > 0 && a.durationNs > 0 && c.durationNs > 0
    requires V.IsRate(a.summary.successfulRps, C.Answered(a), a.durationNs) && V.IsRate(c.summary.successfulRps, C.Answered(c), c.durationNs)
    ensures IsGain(ScalingEfficiency(a, c), C.Answered(a) > 0, After(a, c) * a.concurrency as real, Before(a, c) * c.concurrency as real)
  {
    var x, y := a.summary.successfulRps, c.summary.successfulRps;
    GainTimes(C.Answered(a), a.durationNs, C.Answered(c), c.durationNs, x, y);
    if C.Answered(a) > 0 {
      C.RatioTimes(C.Answered(a), a.durationNs, C.Answered(c), c.durationNs, x, y);
      ScalingTimes(y / x, Before(a, c), After(a, c), a.concurrency as real, c.concurrency as real);
    }
  }

  /** With both percentiles known, the change is the inflation. */
  lemma {:induction false} ChangeIsInflation(x: real, y: real, before: seq<real>, after: seq<real>, minimum: nat)
    requires D.IsPercentile(before, 95, x) && D.IsPercentile(after, 95, y) && |before| >= minimum && |after| >= minimum
    ensures IsInflation(PercentChange(x, y), before, after, minimum)
  {
    C.PercentilesSay(before, after, minimum, x, y, 0.0);
    forall u, v | C.Percentiles(before, after, minimum, u, v) ensures u == x && v == y {
      C.OnlyPercentiles(before, after, minimum, x, y, u, v);
    }
    if x > 0.0 { C.RiseTimes(x, y); }
  }

  lemma {:induction false} NoInflation(before: seq<real>, after: seq<real>, minimum: nat)
    requires minimum > 0 && (|before| < minimum || |after| < minimum)
    ensures IsInflation(None, before, after, minimum)
  {
  }

  lemma {:induction false} InflationIs(previous: Option<D.Summary>, current: Option<D.Summary>, before: seq<real>, after: seq<real>, minimum: nat)
    requires V.DescribesAll(previous, before) && V.DescribesAll(current, after) && minimum > 0
    ensures IsInflation(Inflation(previous, current, minimum), before, after, minimum)
  {
    if |before| >= minimum && |after| >= minimum {
      ChangeIsInflation(previous.value.p95, current.value.p95, before, after, minimum);
    } else {
      NoInflation(before, after, minimum);
    }
  }

  // ---- Step by step ----

  /** A stage of a ladder, with what the figures need to know of it. */
  ghost predicate Sure(s: Stage) {
    && s.concurrency > 0 && s.durationNs > 0 && V.IsRate(s.summary.successfulRps, C.Answered(s), s.durationNs)
    && C.IsShare(s.summary.errorPercent, C.Failed(s) as real, |s.attempts| as real)
    && (s.attempts == [] ==> s.summary.errorPercent == 0.0)
    && V.DescribesAll(s.summary.ttftMs, G.Measured(s.attempts, G.TtftOf))
    && V.DescribesAll(s.summary.e2eMs, G.Measured(s.attempts, G.E2eOf))
  }

  lemma {:induction false} HonestIsSure(s: Stage, maxTokens: nat)
    requires C.Honest(s, maxTokens) && s.concurrency > 0
    ensures Sure(s)
  {
    C.SummaryCounts(s.attempts, s.durationNs, maxTokens);
    C.IsCounted(s, maxTokens);
    V.TimesAre(s.attempts, s.durationNs, maxTokens);
  }

  lemma {:induction false} RpsGainIs(b: Stage, c: Stage)
    requires Sure(b) && Sure(c)
    ensures b.summary.successfulRps > 0.0 <==> C.Answered(b) > 0
    ensures IsGain(PercentChange(b.summary.successfulRps, c.summary.successfulRps), C.Answered(b) > 0, After(b, c) - Before(b, c), Before(b, c))
  {
    GainTimes(C.Answered(b), b.durationNs, C.Answered(c), c.durationNs, b.summary.successfulRps, c.summary.successfulRps);
  }

  lemma {:induction false} MarginalGainIs(b: Stage, c: Stage, rise: real, unit: real)
    requires Sure(b) && Sure(c) && b.concurrency < c.concurrency && rise == After(b, c) - Before(b, c) && unit == Before(b, c)
    ensures IsGain(MarginalEfficiency(b, c), C.Answered(b) > 0, rise * b.concurrency as real, (c.concurrency - b.concurrency) as real * unit)
  {
    RpsGainIs(b, c);
    MarginalIs(b, c, unit, rise);
  }

  lemma {:induction false} GainsHold(a: Stage, b: Stage, c: Stage, minimum: nat)
    requires Sure(a) && Sure(b) && Sure(c) && b.concurrency < c.concurrency
    ensures GainsAre(EvidenceOf(a, b, c, minimum), a, b, c)
  {
    RpsGainIs(b, c);
    MarginalGainIs(b, c, After(b, c) - Before(b, c), Before(b, c));
    ScalingIs(a, c);
  }

  lemma {:induction false} InflationsHold(a: Stage, b: Stage, c: Stage, minimum: nat)
    requires Sure(b) && Sure(c) && minimum > 0
    ensures InflationsAre(EvidenceOf(a, b, c, minimum), b, c, minimum)
  {
    InflationIs(b.summary.ttftMs, c.summary.ttftMs, G.Measured(b.attempts, G.TtftOf), G.Measured(c.attempts, G.TtftOf), minimum);
    InflationIs(b.summary.e2eMs, c.summary.e2eMs, G.Measured(b.attempts, G.E2eOf), G.Measured(c.attempts, G.E2eOf), minimum);
  }

  lemma {:induction false} EvidenceIs(a: Stage, b: Stage, c: Stage, minimum: nat)
    requires Sure(a) && Sure(b) && Sure(c) && b.concurrency < c.concurrency && minimum > 0
    ensures IsEvidence(EvidenceOf(a, b, c, minimum), a, b, c, minimum)
  {
    GainsHold(a, b, c, minimum);
    InflationsHold(a, b, c, minimum);
  }

  lemma {:induction false} AtMostTimes(x: real, t: real, k: real, z: real)
    requires k > 0.0 && x * k == z
    ensures x <= t <==> z <= t * k
    ensures x >= t <==> z >= t * k
    ensures x > t <==> z > t * k
  {
    C.Scaled(x, t, k);
    C.Scaled(t, x, k);
  }

  lemma {:induction false} GainAtMost(gain: Option<real>, comparable: bool, rise: real, unit: real, t: real)
    requires IsGain(gain, comparable, rise, unit) && (comparable ==> unit > 0.0)
    ensures gain.Some? && gain.value <= t <==> comparable && rise * 100.0 <= t * unit
  {
    if comparable { AtMostTimes(gain.value, t, unit, rise * 100.0); }
  }

  lemma {:induction false} UnitPositive(b: Stage, c: Stage)
    requires C.Answered(b) > 0 && c.durationNs > 0 && b.concurrency < c.concurrency
    ensures (c.concurrency - b.concurrency) as real * Before(b, c) > 0.0
  {
    C.PositiveProduct(C.Answered(b) as real, c.durationNs as real);
    C.PositiveProduct((c.concurrency - b.concurrency) as real, Before(b, c));
  }

  lemma {:induction false} PlateauMeans(e: Evidence, a: Stage, b: Stage, c: Stage, p: Policy)
    requires GainsAre(e, a, b, c) && c.durationNs > 0 && b.concurrency < c.concurrency
    ensures e.marginalEfficiency.None? <==> C.Answered(b) == 0
    ensures Plateau(e, p) <==> Plateaus(b, c, p.signalMaxMarginalScalingEfficiencyPercent)
  {
    if C.Answered(b) > 0 { UnitPositive(b, c); }
    GainAtMost(e.marginalEfficiency, C.Answered(b) > 0, (After(b, c) - Before(b, c)) * b.concurrency as real,
               (c.concurrency - b.concurrency) as real * Before(b, c), p.signalMaxMarginalScalingEfficiencyPercent);
  }

  lemma {:induction false} ErrorsMean(c: Stage, p: Policy)
    requires C.IsShare(c.summary.errorPercent, C.Failed(c) as real, |c.attempts| as real)
    requires p.maxErrorPercent >= 0.0 && (c.attempts == [] ==> c.summary.errorPercent == 0.0)
    ensures c.summary.errorPercent > p.maxErrorPercent <==> TooManyErrors(c, p)
  {
    if c.attempts == [] {
      assert C.Failed(c) == 0 by { assert Where(c.attempts, (a: Attempt) => !a.success) == {}; }
    } else {
      AtMostTimes(c.summary.errorPercent, p.maxErrorPercent, |c.attempts| as real, C.Failed(c) as real * 100.0);
    }
  }

  lemma {:induction false} InflatedMeans(gain: Option<real>, before: seq<real>, after: seq<real>, minimum: nat, t: real)
    requires IsInflation(gain, before, after, minimum)
    ensures gain.Some? && gain.value >= t
       <==> exists x, y :: C.Percentiles(before, after, minimum, x, y) && (y - x) * 100.0 >= t * x
  {
    if gain.Some? {
      var x, y :| C.Percentiles(before, after, minimum, x, y);
      AtMostTimes(gain.value, t, x, (y - x) * 100.0);
      forall u, v | C.Percentiles(before, after, minimum, u, v) ensures u == x && v == y {
        C.OnlyPercentiles(before, after, minimum, x, y, u, v);
      }
    }
  }

  /** The status of one figure of inflation. */
  predicate Says(gain: Option<real>, comparable: bool, reached: bool, t: real) {
    (gain.Some? <==> comparable) && (gain.Some? && gain.value >= t <==> reached)
  }

  lemma {:induction false} StepFrom(
    e: Evidence, errorPercent: real, p: Policy, barren: bool, plateau: bool, many: bool,
    ttft: bool, ttftReached: bool, e2e: bool, e2eReached: bool)
    requires (e.marginalEfficiency.None? <==> barren) && (Plateau(e, p) <==> plateau) && (errorPercent > p.maxErrorPercent <==> many)
    requires Says(e.ttftInflation, ttft, ttftReached, p.signalMinP95LatencyInflationPercent)
    requires Says(e.e2eInflation, e2e, e2eReached, p.signalMinP95LatencyInflationPercent)
    ensures var signals := plateau && (many || ttftReached || e2eReached);
      SignalOf(e, errorPercent, p) == if !signals then None else Some(if many then PlateauWithErrorRate else PlateauWithLatencyInflation)
    ensures Gap(e, errorPercent, p) <==> barren || (plateau && !many && !ttft && !e2e)
  {
  }

  lemma {:induction false} InflationSays(gain: Option<real>, b: Stage, c: Stage, pick: Attempt -> Option<real>, p: Policy)
    requires IsInflation(gain, G.Measured(b.attempts, pick), G.Measured(c.attempts, pick), p.minimumLatencySamples)
    ensures Says(gain, Comparable(b, c, pick, p), Inflates(b, c, pick, p), p.signalMinP95LatencyInflationPercent)
  {
    InflatedMeans(gain, G.Measured(b.attempts, pick), G.Measured(c.attempts, pick), p.minimumLatencySamples,
                  p.signalMinP95LatencyInflationPercent);
  }

  /** The signal a step gives. */
  ghost function StepTells(b: Stage, c: Stage, p: Policy): Option<Signal> {
    if !Signals(b, c, p) then None else Some(if TooManyErrors(c, p) then PlateauWithErrorRate else PlateauWithLatencyInflation)
  }

  lemma {:induction false} StepMeans(e: Evidence, a: Stage, b: Stage, c: Stage, p: Policy)
    requires IsEvidence(e, a, b, c, p.minimumLatencySamples) && Sure(b) && Sure(c) && b.concurrency < c.concurrency
    requires p.maxErrorPercent >= 0.0
    ensures SignalOf(e, c.summary.errorPercent, p) == StepTells(b, c, p)
    ensures Gap(e, c.summary.errorPercent, p) <==> Undecided(b, c, p)
  {
    PlateauMeans(e, a, b, c, p);
    ErrorsMean(c, p);
    InflationSays(e.ttftInflation, b, c, G.TtftOf, p);
    InflationSays(e.e2eInflation, b, c, G.E2eOf, p);
    StepFrom(e, c.summary.errorPercent, p, C.Answered(b) == 0, Plateaus(b, c, p.signalMaxMarginalScalingEfficiencyPercent),
             TooManyErrors(c, p), Comparable(b, c, G.TtftOf, p), Inflates(b, c, G.TtftOf, p),
             Comparable(b, c, G.E2eOf, p), Inflates(b, c, G.E2eOf, p));
  }

  // ---- The whole ladder ----

  /** What each stage gives, compared with the one before it; the first stage gives nothing. */
  ghost function SignalsOf(stages: seq<Stage>, p: Policy): (r: seq<Option<Signal>>)
    ensures |r| == |stages|
  {
    seq(|stages|, i requires 0 <= i < |stages| => if i == 0 then None else StepTells(stages[i - 1], stages[i], p))
  }

  ghost function GapsOf(stages: seq<Stage>, p: Policy): (r: seq<bool>)
    ensures |r| == |stages|
  {
    seq(|stages|, i requires 0 <= i < |stages| => i > 0 && Undecided(stages[i - 1], stages[i], p))
  }

  predicate IsFirst(signals: seq<Option<Signal>>, i: nat) {
    i < |signals| && signals[i].Some? && forall j :: 0 <= j < i ==> signals[j].None?
  }

  predicate NoneOf(signals: seq<Option<Signal>>) { forall i :: 0 <= i < |signals| ==> signals[i].None? }

  /** The first signal is reported with its concurrency. Without one the ladder is not assessable when it
      has a single stage or some step is undecided. */
  ghost predicate TellsSignal(r: Assessed, stages: seq<Stage>, signals: seq<Option<Signal>>, gaps: seq<bool>)
    requires |signals| == |gaps| == |stages|
  {
    && (r.status == SignalObserved <==> !NoneOf(signals))
    && (r.status == NotAssessable <==> NoneOf(signals) && (|stages| < 2 || true in gaps))
    && (NoneOf(signals) ==> r.signal.None? && r.firstSignalConcurrency.None?)
    && forall i: nat :: IsFirst(signals, i) ==> r.signal == signals[i] && r.firstSignalConcurrency == Some(stages[i].concurrency)
  }

  /** One row of evidence for every step. */
  ghost predicate TellsSteps(evidence: seq<Evidence>, stages: seq<Stage>, p: Policy) {
    && |evidence| == Max(|stages| - 1, 0)
    && forall i :: 1 <= i < |stages| ==> IsEvidence(evidence[i - 1], stages[0], stages[i - 1], stages[i], p.minimumLatencySamples)
  }

  ghost predicate SureLadder(stages: seq<Stage>, p: Policy) {
    && p.minimumLatencySamples > 0 && p.maxErrorPercent >= 0.0 && (forall i :: 0 <= i < |stages| ==> Sure(stages[i]))
    && forall i :: 1 <= i < |stages| ==> stages[i - 1].concurrency < stages[i].concurrency
  }

  lemma {:induction false} StepAt(stages: seq<Stage>, i: nat, p: Policy)
    requires SureLadder(stages, p) && 1 <= i < |stages|
    ensures IsEvidence(StepEvidence(stages, i, p), stages[0], stages[i - 1], stages[i], p.minimumLatencySamples)
    ensures StepSignal(stages, i, p) == StepTells(stages[i - 1], stages[i], p)
    ensures StepGap(stages, i, p) <==> Undecided(stages[i - 1], stages[i], p)
  {
    EvidenceIs(stages[0], stages[i - 1], stages[i], p.minimumLatencySamples);
    StepMeans(StepEvidence(stages, i, p), stages[0], stages[i - 1], stages[i], p);
  }

  lemma {:induction false} FirstIs(stages: seq<Stage>, p: Policy, signals: seq<Option<Signal>>, first: Option<nat>)
    requires |signals| == |stages| && first == FirstSignal(stages, |stages|, p)
    requires forall i: nat :: i < |stages| ==> signals[i] == if i == 0 then None else StepSignal(stages, i, p)
    ensures first.None? <==> NoneOf(signals)
    ensures first.Some? ==> IsFirst(signals, first.value) && 0 < first.value && signals[first.value] == StepSignal(stages, first.value, p)
  {
  }

  lemma {:induction false} GapIs(stages: seq<Stage>, p: Policy, gaps: seq<bool>)
    requires |gaps| == |stages|
    requires forall i: nat :: i < |stages| ==> gaps[i] == (i > 0 && StepGap(stages, i, p))
    ensures SomeGap(stages, |stages|, p) <==> true in gaps
  {
    if SomeGap(stages, |stages|, p) {
      var i :| 1 <= i < |stages| && StepGap(stages, i, p);
      assert gaps[i];
    }
  }

  lemma {:induction false} OnlyFirst(signals: seq<Option<Signal>>, first: nat)
    requires IsFirst(signals, first)
    ensures !NoneOf(signals) && forall i: nat :: IsFirst(signals, i) ==> i == first
  {
  }

  lemma {:induction false} AssessmentFollows(stages: seq<Stage>, p: Policy, signals: seq<Option<Signal>>, gaps: seq<bool>)
    requires |signals| == |gaps| == |stages|
    requires forall i: nat :: i < |stages| ==> signals[i] == if i == 0 then None else StepSignal(stages, i, p)
    requires forall i: nat :: i < |stages| ==> gaps[i] == (i > 0 && StepGap(stages, i, p))
    ensures TellsSignal(AssessmentOf(stages, p), stages, signals, gaps)
  {
    var first := FirstSignal(stages, |stages|, p);
    FirstIs(stages, p, signals, first);
    GapIs(stages, p, gaps);
    if first.Some? { OnlyFirst(signals, first.value); }
  }

  lemma {:induction false} SignalIsTold(stages: seq<Stage>, p: Policy)
    requires SureLadder(stages, p)
    ensures TellsSignal(AssessmentOf(stages, p), stages, SignalsOf(stages, p), GapsOf(stages, p))
  {
    forall i: nat | 1 <= i < |stages|
      ensures StepTells(stages[i - 1], stages[i], p) == StepSignal(stages, i, p)
      ensures Undecided(stages[i - 1], stages[i], p) <==> StepGap(stages, i, p)
    {
      StepAt(stages, i, p);
    }
    AssessmentFollows(stages, p, SignalsOf(stages, p), GapsOf(stages, p));
  }

  lemma {:induction false} StepsAreTold(stages: seq<Stage>, p: Policy)
    requires SureLadder(stages, p)
    ensures TellsSteps(AssessmentOf(stages, p).evidence, stages, p)
  {
    forall i: nat | 1 <= i < |stages|
      ensures IsEvidence(StepEvidence(stages, i, p), stages[0], stages[i - 1], stages[i], p.minimumLatencySamples)
    {
      StepAt(stages, i, p);
    }
  }

  // ---- Reports and runs ----

  lemma {:induction false} LadderIsSure(stages: seq<Stage>, plan: seq<nat>, maxTokens: nat, p: Policy)
    requires LV.Tell(stages, plan, maxTokens, p) && p.maxErrorPercent >= 0.0 && forall i :: 0 <= i < |plan| ==> plan[i] > 0
    ensures SureLadder(stages, p)
  {
    forall i | 0 <= i < |stages| ensures Sure(stages[i]) && stages[i].concurrency == plan[i] {
      assert LV.Tells(stages[i], plan[i], maxTokens, p);
      HonestIsSure(stages[i], maxTokens);
    }
    forall i | 1 <= i < |stages| ensures stages[i - 1].concurrency < stages[i].concurrency { LV.LaterIsLarger(plan, i - 1, i); }
  }

  lemma {:induction false} PlanIsPositive(plan: seq<nat>)
    requires ValidStages(plan)
    ensures forall i :: 0 <= i < |plan| ==> plan[i] > 0
  {
  }

  /** What an accepted report says of saturation is true of the attempts it retains: every figure of its
      evidence, which signal was given first and where, and whether evidence was missing. */
  lemma {:induction false} AcceptedReportSignal(r: S.Report)
    requires S.ValidEvidence(r)
    ensures TellsSignal(r.assessment, r.out.stages, SignalsOf(r.out.stages, r.policy), GapsOf(r.out.stages, r.policy))
    ensures TellsSteps(r.assessment.evidence, r.out.stages, r.policy)
  {
    LV.AcceptedReportTells(r);
    PlanIsPositive(r.plan.concurrencyStages);
    LadderIsSure(r.out.stages, r.plan.concurrencyStages, r.plan.maxTokens, r.policy);
    SignalIsTold(r.out.stages, r.policy);
    StepsAreTold(r.out.stages, r.policy);
  }

  /** The same of an admitted run, whatever becomes of its report. */
  lemma {:induction false} RunSignal(o: Options, env: Environment, out: Outcome)
    requires Validate(o).Some? && RowsFrom(o, PolicyOf(o), env, out) && PA.ExecutorEnvironment(o, env)
    requires forall i :: 0 <= i < |out.stages| ==> out.stages[i].durationNs >= 1
    ensures var p := PolicyOf(o); var r := AssessmentOf(out.stages, p);
      TellsSignal(r, out.stages, SignalsOf(out.stages, p), GapsOf(out.stages, p)) && TellsSteps(r.evidence, out.stages, p)
  {
    LV.RunTells(o, env, out);
    AdmittedIff(o);
    PlanIsPositive(o.concurrencyStages);
    LadderIsSure(out.stages, o.concurrencyStages, o.maxTokens, PolicyOf(o));
    SignalIsTold(out.stages, PolicyOf(o));
    StepsAreTold(out.stages, PolicyOf(o));
  }
}
