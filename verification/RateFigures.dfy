/** What the figures derived from two readings of an endpoint mean. */
module RateFigures {
  import opened Common
  import H = Histogram
  import Q = QuantileEstimate
  import opened Trend

  /** The difference of a counter that did not fall, over the time between the readings. */
  predicate IsRateOf(rate: Option<real>, before: Option<real>, after: Option<real>, elapsed: real) {
    && (rate.Some? <==> before.Some? && after.Some? && before.value <= after.value)
    && (rate.Some? ==> rate.value * elapsed == after.value - before.value)
  }

  /** What was added to a sum, in thousandths, over what was added to its count. */
  predicate IsMeanOf(mean: Option<real>, sum: Option<real>, count: Option<real>, laterSum: Option<real>, laterCount: Option<real>) {
    && (mean.Some? <==> sum.Some? && laterSum.Some? && sum.value <= laterSum.value
                        && count.Some? && laterCount.Some? && count.value < laterCount.value)
    && (mean.Some? ==> mean.value * (laterCount.value - count.value) == (laterSum.value - sum.value) * 1000.0)
  }

  /** The quantiles of the samples that came between two comparable snapshots, if any did. */
  ghost predicate IsIntervalOf(interval: Option<H.Interval>, before: H.RuntimeHistogram, after: H.RuntimeHistogram) {
    && (interval.Some? <==> H.Comparable(before, after) && H.LastCount(before.buckets) < H.LastCount(after.buckets))
    && (interval.Some? ==> Gained(before, after) && Q.EstimatedFrom(interval.value, H.Difference(before.buckets, after.buckets)))
  }

  ghost predicate Gained(before: H.RuntimeHistogram, after: H.RuntimeHistogram) {
    |before.buckets| == |after.buckets| && H.IsCumulative(H.Difference(before.buckets, after.buckets))
  }

  lemma {:induction false} RateIs(before: Option<real>, after: Option<real>, elapsed: real)
    requires elapsed > 0.0
    ensures IsRateOf(Rate(before, after, elapsed), before, after, elapsed)
  {
  }

  lemma {:induction false} QuotientTimes(a: real, b: real)
    requires b > 0.0
    ensures a / b * 1000.0 * b == a * 1000.0
  {
    assert a / b * b == a;
  }

  lemma {:induction false} MeanIs(sum: Option<real>, count: Option<real>, laterSum: Option<real>, laterCount: Option<real>)
    ensures IsMeanOf(MeanMs(sum, count, laterSum, laterCount), sum, count, laterSum, laterCount)
  {
    if MeanMs(sum, count, laterSum, laterCount).Some? { QuotientTimes(laterSum.value - sum.value, laterCount.value - count.value); }
  }

  lemma {:induction false} IntervalIs(before: H.RuntimeHistogram, after: H.RuntimeHistogram)
    ensures IsIntervalOf(H.IntervalOf(before, after), before, after)
  {
    H.IntervalSamples(before, after);
    if H.IntervalOf(before, after).Some? { Q.IntervalIsEstimated(before, after, H.IntervalOf(before, after)); }
  }

  predicate RatesAre(r: Rates, before: Counters, after: Counters) {
    var b, a := before.values, after.values;
    && IsRateOf(r.requests, b.requestsCompleted, a.requestsCompleted, r.interval) && IsRateOf(r.errors, b.requestErrors, a.requestErrors, r.interval)
    && IsRateOf(r.promptTokens, b.promptTokens, a.promptTokens, r.interval)
    && IsRateOf(r.generationTokens, b.generationTokens, a.generationTokens, r.interval)
    && IsRateOf(r.preemptions, b.preemptions, a.preemptions, r.interval)
  }

  predicate MeansAre(r: Rates, before: Counters, after: Counters) {
    var b, a := before.values, after.values;
    && IsMeanOf(r.meanLatencyMs, b.latencySum, b.latencyCount, a.latencySum, a.latencyCount)
    && IsMeanOf(r.meanTtftMs, b.ttftSum, b.ttftCount, a.ttftSum, a.ttftCount)
    && IsMeanOf(r.meanTpotMs, b.tpotSum, b.tpotCount, a.tpotSum, a.tpotCount)
  }

  ghost predicate IntervalsAre(r: Rates, before: Counters, after: Counters) {
    var x, y := before.histograms, after.histograms;
    && IsIntervalOf(r.requestLatency, x.requestLatency, y.requestLatency)
    && IsIntervalOf(r.timeToFirstToken, x.timeToFirstToken, y.timeToFirstToken)
    && IsIntervalOf(r.timePerOutputToken, x.timePerOutputToken, y.timePerOutputToken)
    && IsIntervalOf(r.queueTime, x.queueTime, y.queueTime)
  }

  /** Five rates, three means and four intervals, each of its own counters or histogram. */
  ghost predicate AreFigures(r: Rates, before: Counters, after: Counters, elapsed: real) {
    r.interval == elapsed && RatesAre(r, before, after) && MeansAre(r, before, after) && IntervalsAre(r, before, after)
  }

  lemma {:induction false} RatesHold(before: Counters, after: Counters, elapsed: real)
    requires elapsed > 0.0
    ensures var r := RatesOf(before, after, elapsed); r.interval == elapsed && RatesAre(r, before, after) && MeansAre(r, before, after)
  {
    var b, a := before.values, after.values;
    RateIs(b.requestsCompleted, a.requestsCompleted, elapsed);
    RateIs(b.requestErrors, a.requestErrors, elapsed);
    RateIs(b.promptTokens, a.promptTokens, elapsed);
    RateIs(b.generationTokens, a.generationTokens, elapsed);
    RateIs(b.preemptions, a.preemptions, elapsed);
    MeanIs(b.latencySum, b.latencyCount, a.latencySum, a.latencyCount);
    MeanIs(b.ttftSum, b.ttftCount, a.ttftSum, a.ttftCount);
    MeanIs(b.tpotSum, b.tpotCount, a.tpotSum, a.tpotCount);
  }

  lemma {:induction false} IntervalsHold(before: Counters, after: Counters, elapsed: real)
    requires elapsed > 0.0
    ensures IntervalsAre(RatesOf(before, after, elapsed), before, after)
  {
    var x, y := before.histograms, after.histograms;
    IntervalIs(x.requestLatency, y.requestLatency);
    IntervalIs(x.timeToFirstToken, y.timeToFirstToken);
    IntervalIs(x.timePerOutputToken, y.timePerOutputToken);
    IntervalIs(x.queueTime, y.queueTime);
  }

  /** Every figure between two readings is what its name says. */
  lemma {:induction false} FiguresAre(before: Counters, after: Counters, elapsed: real)
    requires elapsed > 0.0
    ensures AreFigures(RatesOf(before, after, elapsed), before, after, elapsed)
  {
    RatesHold(before, after, elapsed);
    IntervalsHold(before, after, elapsed);
  }

  // ---- Two cycles of the tracker ----

  /** The address an endpoint is told apart by. */
  function AddressOf(e: Endpoint): string { if e.metricsUrl != [] then e.metricsUrl else e.url }

  ghost predicate DistinctAddresses(endpoints: seq<Endpoint>) {
    forall i, j :: 0 <= i < j < |endpoints| ==> AddressOf(endpoints[i]) != AddressOf(endpoints[j])
  }

  /** Some counter or some histogram. */
  predicate ReportsSomething(c: Counters) {
    var v, h := c.values, c.histograms;
    || v.requestsCompleted.Some? || v.requestErrors.Some? || v.promptTokens.Some? || v.generationTokens.Some? || v.preemptions.Some?
    || v.latencySum.Some? || v.latencyCount.Some? || v.ttftSum.Some? || v.ttftCount.Some? || v.tpotSum.Some? || v.tpotCount.Some?
    || h.requestLatency.buckets != [] || h.timeToFirstToken.buckets != [] || h.timePerOutputToken.buckets != [] || h.queueTime.buckets != []
  }

  predicate WasRead(e: Endpoint) { e.reachable && ReportsSomething(e.counters) }

  /** What becomes of an endpoint `e` that was `d` in the cycle before: with both read and time between
      them it is given their figures, and else it keeps what it came with. */
  ghost predicate IsRatedAfter(rated: Endpoint, d: Endpoint, at: int, e: Endpoint, now: int) {
    && rated == e.(rates := rated.rates)
    && (WasRead(e) && WasRead(d) && now > at ==>
          rated.rates.Some? && AreFigures(rated.rates.value, d.counters, e.counters, (now - at) as real / 1_000_000_000.0))
    && (!WasRead(e) || (WasRead(d) && now <= at) ==> rated == e)
  }

  /** So does an endpoint that is not in the list of the cycle before. */
  ghost predicate RatedAfterAll(rated: seq<Endpoint>, earlier: seq<Endpoint>, at: int, later: seq<Endpoint>, now: int) {
    && |rated| == |later|
    && (forall i, j :: 0 <= i < |earlier| && 0 <= j < |later| && AddressOf(earlier[i]) == AddressOf(later[j]) ==>
          IsRatedAfter(rated[j], earlier[i], at, later[j], now))
    && (forall j :: 0 <= j < |later| && (forall i :: 0 <= i < |earlier| ==> AddressOf(earlier[i]) != AddressOf(later[j])) ==>
          rated[j] == later[j])
  }

  lemma {:induction false} KeysAreAddresses(endpoints: seq<Endpoint>)
    ensures DistinctAddresses(endpoints) <==> DistinctKeys(endpoints)
  {
    forall e: Endpoint ensures EndpointKey(e) == AddressOf(e) {}
  }

  lemma {:induction false} ReadMeans(e: Endpoint)
    ensures HasReading(e) <==> WasRead(e)
  {
  }

  lemma {:induction false} NextIs(d: Endpoint, at: int, held: Option<EndpointSample>, e: Endpoint, now: int, rates: Option<Rates>)
    requires held.Some? && WasRead(d) ==> held == Some(EndpointSample(d.counters, at))
    requires WasRead(d) ==> held.Some?
    requires rates == NextRates(held, e, now)
    ensures IsRatedAfter(e.(rates := rates), d, at, e, now)
  {
    ReadMeans(e);
    if WasRead(e) && WasRead(d) && now > at { FiguresAre(d.counters, e.counters, (now - at) as real / 1_000_000_000.0); }
    if rates == e.rates { assert e.(rates := rates) == e; }
  }

  /** An endpoint of the earlier cycle. */
  lemma {:induction false} ListedBefore(
    start: map<string, EndpointSample>, earlier: seq<Endpoint>, at: int, i: nat, later: seq<Endpoint>, now: int, j: nat)
    requires DistinctKeys(earlier) && DistinctKeys(later) && i < |earlier| && j < |later| && AddressOf(earlier[i]) == AddressOf(later[j])
    ensures IsRatedAfter(RatedAt(TableNext(start, earlier, at), later, j, now), earlier[i], at, later[j], now)
  {
    var between := TableNext(start, earlier, at);
    CycleByEndpoint(start, earlier, i, at);
    CycleByEndpoint(between, later, j, now);
    ReadMeans(earlier[i]);
    var key := EndpointKey(later[j]);
    NextIs(earlier[i], at, Lookup(between, key), later[j], now, NextRates(Lookup(between, key), later[j], now));
  }

  lemma {:induction false} KeysOnly<V>(entries: seq<(string, Option<V>)>, n: nat, key: string)
    requires n <= |entries| && forall i :: 0 <= i < n ==> entries[i].0 != key
    ensures key !in EntryKeys(entries, n)
  {
    if n > 0 { KeysOnly(entries, n - 1, key); }
  }

  lemma {:induction false} NotListedBefore(
    start: map<string, EndpointSample>, earlier: seq<Endpoint>, at: int, later: seq<Endpoint>, now: int, j: nat)
    requires DistinctKeys(later) && j < |later| && forall i :: 0 <= i < |earlier| ==> AddressOf(earlier[i]) != AddressOf(later[j])
    ensures RatedAt(TableNext(start, earlier, at), later, j, now) == later[j]
  {
    var between, key := TableNext(start, earlier, at), EndpointKey(later[j]);
    KeysOnly(EntriesOf(earlier, at), |earlier|, key);
    CycleByEndpoint(between, later, j, now);
    assert key !in between;
  }

  /** Two cycles over lists without repeated addresses: every endpoint of the second is rated against its
      reading in the first, whatever was held before. */
  lemma {:induction false} SecondCycleRates(
    start: map<string, EndpointSample>, earlier: seq<Endpoint>, at: int, between: map<string, EndpointSample>, later: seq<Endpoint>, now: int,
    rated: seq<Endpoint>)
    requires DistinctAddresses(earlier) && DistinctAddresses(later)
    requires between == TableNext(start, earlier, at) && rated == Rated(between, later, |later|, now)
    ensures RatedAfterAll(rated, earlier, at, later, now)
  {
    KeysAreAddresses(earlier);
    KeysAreAddresses(later);
    forall j: nat | j < |later| ensures rated[j] == RatedAt(between, later, j, now) { RatedByPosition(between, later, |later|, j, now); }
    forall i: nat, j: nat | i < |earlier| && j < |later| && AddressOf(earlier[i]) == AddressOf(later[j])
      ensures IsRatedAfter(rated[j], earlier[i], at, later[j], now)
    {
      ListedBefore(start, earlier, at, i, later, now, j);
    }
    forall j: nat | j < |later| && (forall i :: 0 <= i < |earlier| ==> AddressOf(earlier[i]) != AddressOf(later[j])) ensures rated[j] == later[j] {
      NotListedBefore(start, earlier, at, later, now, j);
    }
  }

  /** The same of the tracker itself. */
  method ObserveTwice(tracker: Tracker, first: array<Endpoint>, at: int, second: array<Endpoint>, now: int)
    requires first != second && DistinctAddresses(first[..]) && DistinctAddresses(second[..])
    modifies tracker`endpoints, first, second
    ensures RatedAfterAll(second[..], old(first[..]), at, old(second[..]), now)
  {
    ghost var start, earlier, later := tracker.endpoints, first[..], second[..];
    tracker.ObserveEndpoints(first, at);
    ghost var between := tracker.endpoints;
    assert second[..] == later;
    tracker.ObserveEndpoints(second, now);
    SecondCycleRates(start, earlier, at, between, later, now, second[..]);
  }
}
