/** Cumulative latency histograms: validation, aggregation over series, differencing of snapshots
    and quantile estimation. Counts and bounds are reals, so the finiteness tests of the
    floating-point code hold of every value here. */
module Histogram {
  import opened Common
  import Sorting

  const MAX_BUCKETS: nat := 64
  const MAX_SERIES: nat := 32

  /** `None` is the required `+Inf` bound. */
  datatype Bucket = Bucket(upper: Option<real>, count: real)

  /** An ordered map from series keys to their buckets, listed in key order. */
  type Series = seq<(string, seq<Bucket>)>

  datatype RuntimeHistogram = RuntimeHistogram(seriesCount: nat, buckets: seq<Bucket>, series: Series)

  datatype Interval = Interval(samples: real, p50Ms: real, p95Ms: real, p99Ms: real)

  // ---- Validity ----

  /** Bounds strictly increase from a non-negative value to `+Inf`; counts never fall. */
  ghost predicate IsCumulative(buckets: seq<Bucket>) {
    && 2 <= |buckets| <= MAX_BUCKETS
    && (forall i :: 0 <= i < |buckets| ==> (buckets[i].upper.None? <==> i == |buckets| - 1))
    && (forall i :: 0 <= i < |buckets| - 1 ==> buckets[i].upper.value >= 0.0)
    && (forall i, j :: 0 <= i < j < |buckets| - 1 ==> buckets[i].upper.value < buckets[j].upper.value)
    && (forall i :: 0 <= i < |buckets| ==> buckets[i].count >= 0.0)
    && (forall i, j :: 0 <= i <= j < |buckets| ==> buckets[i].count <= buckets[j].count)
  }

  method ValidCumulativeHistogram(buckets: seq<Bucket>) returns (valid: bool)
    ensures valid == IsCumulative(buckets)
  {
    if !(2 <= |buckets| <= MAX_BUCKETS) || buckets[|buckets| - 1].upper.Some? { return false; }
    var previousBound: Option<real> := None;
    var previousCount := 0.0;
    for index := 0 to |buckets|
      invariant forall i :: 0 <= i < index ==> (buckets[i].upper.None? <==> i == |buckets| - 1)
      invariant forall i :: 0 <= i < index && i < |buckets| - 1 ==> buckets[i].upper.value >= 0.0
      invariant forall i, j :: 0 <= i < j < index && j < |buckets| - 1 ==> buckets[i].upper.value < buckets[j].upper.value
      invariant forall i :: 0 <= i < index ==> buckets[i].count >= 0.0
      invariant forall i, j :: 0 <= i <= j < index ==> buckets[i].count <= buckets[j].count
      invariant previousCount == if index == 0 then 0.0 else buckets[index - 1].count
      invariant index == 0 ==> previousBound == None
      invariant 0 < index < |buckets| ==> previousBound == buckets[index - 1].upper
    {
      var bucket := buckets[index];
      if bucket.count < previousCount || bucket.count < 0.0 { return false; }
      previousCount := bucket.count;
      match bucket.upper {
        case Some(bound) =>
          if bound < 0.0 || (previousBound.Some? && bound <= previousBound.value) { return false; }
          previousBound := Some(bound);
        case None =>
          if !(index + 1 == |buckets| && previousBound.Some?) { return false; }
      }
    }
    return true;
  }

  ghost predicate SameBounds(a: seq<Bucket>, b: seq<Bucket>) {
    |a| == |b| && forall j :: 0 <= j < |a| ==> a[j].upper == b[j].upper
  }

  // ---- Aggregation ----

  ghost function SumAt(series: Series, j: nat): real
    requires forall k :: 0 <= k < |series| ==> j < |series[k].1|
  {
    if series == [] then 0.0 else SumAt(series[..|series| - 1], j) + series[|series| - 1].1[j].count
  }

  ghost predicate Compatible(series: Series) {
    && (forall k :: 0 <= k < |series| ==> IsCumulative(series[k].1))
    && (forall k :: 0 <= k < |series| ==> SameBounds(series[0].1, series[k].1))
  }

  /** Bucket by bucket, the counts of all series added up. */
  ghost function Total(series: Series): (r: seq<Bucket>)
    requires series != [] && Compatible(series)
    ensures |r| == |series[0].1|
  {
    assert forall k :: 0 <= k < |series| ==> SameBounds(series[0].1, series[k].1);
    seq(|series[0].1|, j requires 0 <= j < |series[0].1| => Bucket(series[0].1[j].upper, SumAt(series, j)))
  }

  ghost function Aggregate(series: Series): Option<seq<Bucket>> {
    if 1 <= |series| <= MAX_SERIES && Compatible(series) then Some(Total(series)) else None
  }

  lemma {:induction false} CompatiblePrefix(series: Series, n: nat)
    requires n <= |series| && Compatible(series)
    ensures Compatible(series[..n])
  {
    forall k | 0 <= k < n ensures IsCumulative(series[..n][k].1) && SameBounds(series[..n][0].1, series[..n][k].1) {
      assert series[..n][k] == series[k];
      assert IsCumulative(series[k].1) && SameBounds(series[0].1, series[k].1);
    }
  }

  lemma {:induction false} TotalCount(series: Series, j: nat)
    requires series != [] && Compatible(series) && j < |series[0].1|
    ensures Total(series)[j].upper == series[0].1[j].upper
    ensures forall k :: 0 <= k < |series| ==> j < |series[k].1|
    ensures Total(series)[j].count == SumAt(series, j)
  {
    assert forall k :: 0 <= k < |series| ==> SameBounds(series[0].1, series[k].1);
  }

  lemma {:induction false} SumAtMonotone(series: Series, i: nat, j: nat)
    requires Compatible(series) && i <= j && forall k :: 0 <= k < |series| ==> j < |series[k].1|
    ensures 0.0 <= SumAt(series, i) <= SumAt(series, j)
  {
    if series != [] {
      var last := |series| - 1;
      CompatiblePrefix(series, last);
      assert IsCumulative(series[last].1);
      SumAtMonotone(series[..last], i, j);
    }
  }

  /** Compatible series add up to a valid histogram, so the final test of the code never fails. */
  lemma {:induction false} TotalIsCumulative(series: Series)
    requires series != [] && Compatible(series)
    ensures IsCumulative(Total(series)) && SameBounds(Total(series), series[0].1)
  {
    var total := Total(series);
    assert IsCumulative(series[0].1);
    forall j: nat | j < |total| ensures total[j].upper == series[0].1[j].upper && total[j].count >= 0.0 {
      TotalCount(series, j);
      SumAtMonotone(series, j, j);
    }
    forall i: nat, j: nat | i <= j < |total| ensures total[i].count <= total[j].count {
      TotalCount(series, i);
      TotalCount(series, j);
      SumAtMonotone(series, i, j);
    }
  }

  lemma {:induction false} TotalOfOne(series: Series)
    requires |series| == 1 && Compatible(series)
    ensures Total(series) == series[0].1
  {
    forall j: nat | j < |series[0].1| ensures Total(series)[j] == series[0].1[j] {
      TotalCount(series, j);
      assert series[..0] == [];
    }
  }

  /** Add one series into the running aggregate, bucket by bucket; `None` when the shapes differ. */
  method AddInto(aggregate: seq<Bucket>, buckets: seq<Bucket>) returns (sum: Option<seq<Bucket>>)
    ensures sum.Some? == SameBounds(aggregate, buckets)
    ensures sum.Some? ==> |sum.value| == |aggregate|
    ensures sum.Some? ==> forall j :: 0 <= j < |aggregate| ==>
      sum.value[j] == Bucket(aggregate[j].upper, aggregate[j].count + buckets[j].count)
  {
    if |aggregate| != |buckets| { return None; }
    var current := aggregate;
    for j := 0 to |aggregate|
      invariant |current| == |aggregate|
      invariant forall i :: 0 <= i < j ==> aggregate[i].upper == buckets[i].upper
      invariant forall i :: 0 <= i < j ==> current[i] == Bucket(aggregate[i].upper, aggregate[i].count + buckets[i].count)
      invariant forall i :: j <= i < |current| ==> current[i] == aggregate[i]
    {
      if current[j].upper != buckets[j].upper { return None; }
      current := current[j := current[j].(count := current[j].count + buckets[j].count)];
    }
    return Some(current);
  }

  lemma {:induction false} TotalExtends(series: Series, n: nat, next: seq<Bucket>)
    requires 0 < n < |series| && Compatible(series[..n])
    requires IsCumulative(series[n].1) && SameBounds(Total(series[..n]), series[n].1)
    requires |next| == |Total(series[..n])|
    requires forall j :: 0 <= j < |next| ==>
      next[j] == Bucket(Total(series[..n])[j].upper, Total(series[..n])[j].count + series[n].1[j].count)
    ensures Compatible(series[..n + 1]) && Total(series[..n + 1]) == next
  {
    var before, after := series[..n], series[..n + 1];
    TotalIsCumulative(before);
    forall k | 0 <= k < n + 1 ensures IsCumulative(after[k].1) && SameBounds(after[0].1, after[k].1) {
      if k < n { assert after[k] == before[k]; }
    }
    forall j: nat | j < |next| ensures Total(after)[j] == next[j] {
      TotalCount(before, j);
      TotalCount(after, j);
      assert after[..n] == before;
    }
  }

  /** Within compatible series, every further one continues the total of those before it. */
  lemma {:induction false} CompatibleExtension(series: Series, n: nat)
    requires 0 < n < |series| && Compatible(series[..n]) && Compatible(series)
    ensures IsCumulative(series[n].1) && SameBounds(Total(series[..n]), series[n].1)
  {
    TotalIsCumulative(series[..n]);
    assert series[..n][0] == series[0];
    assert IsCumulative(series[n].1) && SameBounds(series[0].1, series[n].1);
  }

  method AggregateHistogramSeries(series: Series) returns (result: Option<seq<Bucket>>)
    ensures result == Aggregate(series)
  {
    if !(1 <= |series| <= MAX_SERIES) { return None; }
    var aggregate: Option<seq<Bucket>> := None;
    for n := 0 to |series|
      invariant n == 0 ==> aggregate == None
      invariant n > 0 ==> Compatible(series[..n]) && aggregate == Some(Total(series[..n]))
    {
      var buckets := series[n].1;
      var valid := ValidCumulativeHistogram(buckets);
      if !valid {
        assert !IsCumulative(series[n].1);
        return None;
      }
      if aggregate.None? {
        aggregate := Some(buckets);
        assert series[..1] == [series[0]];
        TotalOfOne(series[..1]);
      } else {
        var sum := AddInto(aggregate.value, buckets);
        if sum.None? {
          if Compatible(series) { CompatibleExtension(series, n); }
          return None;
        }
        TotalExtends(series, n, sum.value);
        aggregate := sum;
      }
    }
    assert series[..|series|] == series;
    TotalIsCumulative(series);
    var valid := ValidCumulativeHistogram(aggregate.value);
    return if valid then aggregate else None;
  }

  // ---- Differencing ----

  ghost predicate Differencable(before: seq<Bucket>, after: seq<Bucket>) {
    && IsCumulative(before) && IsCumulative(after) && SameBounds(before, after)
    && (forall j :: 0 <= j < |before| ==> before[j].count <= after[j].count)
    && (forall i, j :: 0 <= i <= j < |before| ==>
          after[i].count - before[i].count <= after[j].count - before[j].count)
  }

  ghost function Difference(before: seq<Bucket>, after: seq<Bucket>): (r: seq<Bucket>)
    requires |before| == |after|
    ensures |r| == |before|
    ensures forall j :: 0 <= j < |r| ==> r[j] == Bucket(before[j].upper, after[j].count - before[j].count)
  {
    seq(|before|, j requires 0 <= j < |before| => Bucket(before[j].upper, after[j].count - before[j].count))
  }

  lemma {:induction false} DifferenceIsCumulative(before: seq<Bucket>, after: seq<Bucket>)
    requires Differencable(before, after)
    ensures IsCumulative(Difference(before, after)) && SameBounds(Difference(before, after), before)
  {
  }

  method DifferenceHistogramBuckets(before: seq<Bucket>, after: seq<Bucket>) returns (result: Option<seq<Bucket>>)
    ensures result == if Differencable(before, after) then Some(Difference(before, after)) else None
  {
    var beforeValid := ValidCumulativeHistogram(before);
    var afterValid := ValidCumulativeHistogram(after);
    if !beforeValid || !afterValid || |before| != |after| { return None; }
    var cumulative: seq<Bucket> := [];
    var previousDelta := 0.0;
    for n := 0 to |before|
      invariant |cumulative| == n && cumulative == Difference(before, after)[..n]
      invariant forall j :: 0 <= j < n ==> before[j].upper == after[j].upper && before[j].count <= after[j].count
      invariant forall i, j :: 0 <= i <= j < n ==> after[i].count - before[i].count <= after[j].count - before[j].count
      invariant previousDelta == if n == 0 then 0.0 else after[n - 1].count - before[n - 1].count
    {
      if before[n].upper != after[n].upper || after[n].count < before[n].count { return None; }
      var delta := after[n].count - before[n].count;
      if delta < previousDelta { return None; }
      previousDelta := delta;
      cumulative := cumulative + [Bucket(before[n].upper, delta)];
    }
    assert cumulative == Difference(before, after);
    DifferenceIsCumulative(before, after);
    var valid := ValidCumulativeHistogram(cumulative);
    return if valid then Some(cumulative) else None;
  }

  // ---- Quantiles ----

  /** First bucket whose cumulative count reaches a rank. */
  function FirstReaching(buckets: seq<Bucket>, rank: real): (index: Option<nat>)
    ensures index.Some? ==>
      && index.value < |buckets| && buckets[index.value].count >= rank
      && forall i :: 0 <= i < index.value ==> buckets[i].count < rank
    ensures index.None? ==> forall i :: 0 <= i < |buckets| ==> buckets[i].count < rank
  {
    if buckets == [] then None
    else if buckets[0].count >= rank then Some(0)
    else match FirstReaching(buckets[1..], rank)
      case None => None
      case Some(index) => Some(index + 1)
  }

  function QuantileSeconds(buckets: seq<Bucket>, quantile: real): Option<real> {
    if buckets == [] then None else QuantileAtRank(buckets, quantile * buckets[|buckets| - 1].count)
  }

  /** The point at which the estimated distribution reaches a rank. */
  function QuantileAtRank(buckets: seq<Bucket>, rank: real): Option<real> {
    match FirstReaching(buckets, rank)
    case None => None
    case Some(index) =>
      match buckets[index].upper
      case None => if index == 0 then None else buckets[index - 1].upper
      case Some(upper) =>
        if index > 0 && buckets[index - 1].upper.None? then None else
        var lower := if index == 0 then 0.0 else buckets[index - 1].upper.value;
        var lowerCount := if index == 0 then 0.0 else buckets[index - 1].count;
        var bucketCount := buckets[index].count - lowerCount;
        if bucketCount <= 0.0 then Some(upper)
        else Some(Interpolate(lower, upper, rank - lowerCount, bucketCount))
  }

  /** The point a share `x / n` of the way from `lower` to `upper`. */
  function Interpolate(lower: real, upper: real, x: real, n: real): real
    requires n > 0.0
  {
    lower + (upper - lower) * x / n
  }

  lemma {:induction false} TimesMonotone(w: real, x: real, y: real)
    requires w >= 0.0 && x <= y
    ensures w * x <= w * y
  {
    assert w * (y - x) >= 0.0;
  }

  lemma {:induction false} DivideMonotone(a: real, b: real, n: real)
    requires n > 0.0 && a <= b
    ensures a / n <= b / n
  {
    assert (b / n - a / n) * n == b - a;
  }

  lemma {:induction false} InterpolateMonotone(lower: real, upper: real, x: real, y: real, n: real)
    requires lower <= upper && 0.0 <= x <= y <= n && n > 0.0
    ensures lower <= Interpolate(lower, upper, x, n) <= Interpolate(lower, upper, y, n) <= upper
  {
    var w := upper - lower;
    TimesMonotone(w, 0.0, x);
    TimesMonotone(w, x, y);
    TimesMonotone(w, y, n);
    DivideMonotone(0.0, w * x, n);
    DivideMonotone(w * x, w * y, n);
    DivideMonotone(w * y, w * n, n);
    assert (w * n) / n == w;
  }

  lemma {:induction false} RankBounds(q1: real, q2: real, total: real)
    requires total > 0.0 && 0.0 < q1 <= q2 <= 1.0
    ensures 0.0 < q1 * total <= q2 * total <= total
  {
    TimesMonotone(total, q1, q2);
    TimesMonotone(total, q2, 1.0);
  }

  ghost function LowerBound(buckets: seq<Bucket>, index: nat): real
    requires IsCumulative(buckets) && index < |buckets|
  {
    if index == 0 then 0.0 else buckets[index - 1].upper.value
  }

  ghost function LowerCount(buckets: seq<Bucket>, index: nat): real
    requires index < |buckets|
  {
    if index == 0 then 0.0 else buckets[index - 1].count
  }

  ghost function UpperBound(buckets: seq<Bucket>, index: nat): real
    requires IsCumulative(buckets) && index < |buckets|
  {
    if index == |buckets| - 1 then buckets[index - 1].upper.value else buckets[index].upper.value
  }

  lemma {:induction false} BoundsAscend(buckets: seq<Bucket>, i: nat, j: nat)
    requires IsCumulative(buckets) && i <= j < |buckets|
    ensures 0.0 <= LowerBound(buckets, i) <= UpperBound(buckets, i) <= UpperBound(buckets, j) <= UpperBound(buckets, |buckets| - 1)
    ensures i < j ==> UpperBound(buckets, i) <= LowerBound(buckets, j)
  {
  }

  /** The rank in terms of the first bucket that reaches it. */
  lemma {:induction false} RankFormula(buckets: seq<Bucket>, rank: real) returns (index: nat)
    requires IsCumulative(buckets) && 0.0 < rank <= buckets[|buckets| - 1].count
    ensures FirstReaching(buckets, rank) == Some(index) && index < |buckets|
    ensures LowerCount(buckets, index) < rank <= buckets[index].count
    ensures QuantileAtRank(buckets, rank) == Some(
      if index == |buckets| - 1 then UpperBound(buckets, index)
      else Interpolate(LowerBound(buckets, index), UpperBound(buckets, index),
             rank - LowerCount(buckets, index), buckets[index].count - LowerCount(buckets, index)))
    ensures LowerBound(buckets, index) <= QuantileAtRank(buckets, rank).value <= UpperBound(buckets, index)
  {
    index := FirstReaching(buckets, rank).value;
    BoundsAscend(buckets, index, index);
    var x, n := rank - LowerCount(buckets, index), buckets[index].count - LowerCount(buckets, index);
    InterpolateMonotone(LowerBound(buckets, index), UpperBound(buckets, index), x, x, n);
  }

  lemma {:induction false} AtRankMonotone(buckets: seq<Bucket>, r1: real, r2: real)
    requires IsCumulative(buckets) && 0.0 < r1 <= r2 <= buckets[|buckets| - 1].count
    ensures QuantileAtRank(buckets, r1).Some? && QuantileAtRank(buckets, r2).Some?
    ensures QuantileAtRank(buckets, r1).value <= QuantileAtRank(buckets, r2).value
  {
    var i := RankFormula(buckets, r1);
    var j := RankFormula(buckets, r2);
    BoundsAscend(buckets, i, j);
    if i == j && i < |buckets| - 1 {
      var lc := LowerCount(buckets, i);
      InterpolateMonotone(LowerBound(buckets, i), UpperBound(buckets, i), r1 - lc, r2 - lc, buckets[i].count - lc);
    }
  }

  /** On a valid histogram with samples, every quantile exists and lies between zero and the
      largest finite bound. */
  lemma {:induction false} QuantileBounded(buckets: seq<Bucket>, quantile: real)
    requires IsCumulative(buckets) && buckets[|buckets| - 1].count > 0.0 && 0.0 < quantile <= 1.0
    ensures QuantileSeconds(buckets, quantile).Some?
    ensures 0.0 <= QuantileSeconds(buckets, quantile).value <= buckets[|buckets| - 2].upper.value
  {
    RankBounds(quantile, quantile, buckets[|buckets| - 1].count);
    var i := RankFormula(buckets, quantile * buckets[|buckets| - 1].count);
    BoundsAscend(buckets, i, i);
  }

  /** Higher quantiles are never smaller. */
  lemma {:induction false} QuantileMonotone(buckets: seq<Bucket>, q1: real, q2: real)
    requires IsCumulative(buckets) && buckets[|buckets| - 1].count > 0.0 && 0.0 < q1 <= q2 <= 1.0
    ensures QuantileSeconds(buckets, q1).Some? && QuantileSeconds(buckets, q2).Some?
    ensures QuantileSeconds(buckets, q1).value <= QuantileSeconds(buckets, q2).value
  {
    RankBounds(q1, q2, buckets[|buckets| - 1].count);
    AtRankMonotone(buckets, q1 * buckets[|buckets| - 1].count, q2 * buckets[|buckets| - 1].count);
  }

  // ---- Snapshots ----

  predicate BucketLeq(a: Bucket, b: Bucket) {
    b.upper.None? || (a.upper.Some? && a.upper.value <= b.upper.value)
  }

  function SortSeries(series: Series): (r: Series)
    ensures |r| == |series|
    ensures forall k :: 0 <= k < |r| ==> r[k] == (series[k].0, Sorting.Sort(series[k].1, BucketLeq))
  {
    seq(|series|, k requires 0 <= k < |series| => (series[k].0, Sorting.Sort(series[k].1, BucketLeq)))
  }

  /** A snapshot is valid when its buckets are, and when they are the total of the series it still
      carries; a stored snapshot carries none. */
  ghost predicate IsValid(h: RuntimeHistogram) {
    && 1 <= h.seriesCount <= MAX_SERIES && IsCumulative(h.buckets)
    && (h.series != [] ==> |h.series| == h.seriesCount && Aggregate(h.series) == Some(h.buckets))
  }

  method HistogramIsValid(h: RuntimeHistogram) returns (valid: bool)
    ensures valid == IsValid(h)
  {
    if !(1 <= h.seriesCount <= MAX_SERIES) { return false; }
    var cumulative := ValidCumulativeHistogram(h.buckets);
    if !cumulative { return false; }
    if h.series == [] { return true; }
    var aggregate := AggregateHistogramSeries(h.series);
    return |h.series| == h.seriesCount && aggregate == Some(h.buckets);
  }

  /** What collected series become: sorted by bound and added up, or nothing at all. */
  ghost function SnapshotOf(series: Series): Option<RuntimeHistogram> {
    var sorted := SortSeries(series);
    match Aggregate(sorted)
    case None => None
    case Some(buckets) => Some(RuntimeHistogram(|series|, buckets, sorted))
  }

  method FromSeries(series: Series) returns (h: Option<RuntimeHistogram>)
    ensures h == SnapshotOf(series)
    ensures h.Some? ==> IsValid(h.value)
  {
    if !(1 <= |series| <= MAX_SERIES) { return None; }
    var sorted: Series := [];
    for k := 0 to |series|
      invariant sorted == SortSeries(series)[..k]
    {
      sorted := sorted + [(series[k].0, Sorting.Sort(series[k].1, BucketLeq))];
    }
    assert sorted == SortSeries(series);
    var buckets := AggregateHistogramSeries(sorted);
    if buckets.None? { return None; }
    TotalIsCumulative(sorted);
    var histogram := RuntimeHistogram(|sorted|, buckets.value, sorted);
    var valid := HistogramIsValid(histogram);
    return if valid then Some(histogram) else None;
  }

  // ---- Intervals ----

  /** The series can be paired and differenced one by one. */
  ghost predicate Pairable(before: Series, after: Series) {
    && |before| == |after|
    && forall k :: 0 <= k < |before| ==> before[k].0 == after[k].0 && Differencable(before[k].1, after[k].1)
  }

  /** Both snapshots are live and valid, name the same series in the same order with the same
      bounds, no bucket of any series fell, and none of the differences is out of order. */
  ghost predicate Comparable(before: RuntimeHistogram, after: RuntimeHistogram) {
    && IsValid(before) && IsValid(after)
    && |before.series| > 0 && Pairable(before.series, after.series)
  }

  ghost function Differences(before: Series, after: Series): (r: Series)
    requires |before| == |after|
    requires forall k :: 0 <= k < |before| ==> |before[k].1| == |after[k].1|
    ensures |r| == |before|
    ensures forall k :: 0 <= k < |r| ==> r[k] == (before[k].0, Difference(before[k].1, after[k].1))
  {
    seq(|before|, k requires 0 <= k < |before| => (before[k].0, Difference(before[k].1, after[k].1)))
  }

  function LastCount(buckets: seq<Bucket>): real
    requires buckets != []
  {
    buckets[|buckets| - 1].count
  }

  ghost function SummaryOf(cumulative: seq<Bucket>): Option<Interval>
    requires cumulative != []
  {
    if LastCount(cumulative) <= 0.0 then None
    else
      var p50, p95, p99 :=
        QuantileSeconds(cumulative, 0.50), QuantileSeconds(cumulative, 0.95), QuantileSeconds(cumulative, 0.99);
      Some(Interval(LastCount(cumulative), p50.GetOr(0.0) * 1000.0, p95.GetOr(0.0) * 1000.0, p99.GetOr(0.0) * 1000.0))
  }

  ghost function IntervalOf(before: RuntimeHistogram, after: RuntimeHistogram): Option<Interval> {
    if Comparable(before, after) then SummaryOf(Difference(before.buckets, after.buckets)) else None
  }

  lemma {:induction false} SumOfDifferences(before: Series, after: Series, j: nat)
    requires |before| == |after|
    requires forall k :: 0 <= k < |before| ==> j < |before[k].1| == |after[k].1|
    ensures SumAt(Differences(before, after), j) == SumAt(after, j) - SumAt(before, j)
  {
    if before != [] {
      var last := |before| - 1;
      assert Differences(before, after)[..last] == Differences(before[..last], after[..last]);
      SumOfDifferences(before[..last], after[..last], j);
    }
  }

  lemma {:induction false} ComparableShapes(before: RuntimeHistogram, after: RuntimeHistogram, k: nat)
    requires Comparable(before, after) && k < |before.series|
    ensures SameBounds(before.buckets, before.series[k].1) && SameBounds(after.buckets, after.series[k].1)
    ensures SameBounds(before.series[k].1, after.series[k].1) && SameBounds(before.buckets, after.buckets)
  {
    TotalIsCumulative(before.series);
    TotalIsCumulative(after.series);
    assert SameBounds(before.series[0].1, before.series[k].1);
    assert SameBounds(after.series[0].1, after.series[k].1);
    assert Differencable(before.series[k].1, after.series[k].1);
    assert Differencable(before.series[0].1, after.series[0].1);
  }

  /** `b` is bucket `j` of the total of the series. */
  ghost predicate IsColumn(series: Series, j: nat, b: Bucket) {
    && series != [] && (forall k :: 0 <= k < |series| ==> j < |series[k].1|)
    && b == Bucket(series[0].1[j].upper, SumAt(series, j))
  }

  lemma {:induction false} ColumnOfTotal(series: Series, j: nat)
    requires series != [] && Compatible(series) && j < |series[0].1|
    ensures IsColumn(series, j, Total(series)[j])
  {
    TotalCount(series, j);
  }

  lemma {:induction false} ColumnOfDifferences(before: Series, after: Series, j: nat, b: Bucket, a: Bucket, d: Bucket)
    requires |before| == |after| && forall k :: 0 <= k < |before| ==> |before[k].1| == |after[k].1|
    requires IsColumn(before, j, b) && IsColumn(after, j, a) && IsColumn(Differences(before, after), j, d)
    ensures d == Bucket(b.upper, a.count - b.count)
  {
    SumOfDifferences(before, after, j);
  }

  lemma {:induction false} TotalOfDifferences(before: Series, after: Series, diffs: Series)
    requires |before| == |after| == |diffs| > 0 && Compatible(before) && Compatible(after) && Compatible(diffs)
    requires forall k :: 0 <= k < |before| ==> |before[k].1| == |after[k].1|
    requires diffs == Differences(before, after)
    ensures |Total(before)| == |Total(after)| && Total(diffs) == Difference(Total(before), Total(after))
  {
    forall j: nat | j < |before[0].1|
      ensures Total(diffs)[j] == Bucket(Total(before)[j].upper, Total(after)[j].count - Total(before)[j].count)
    {
      ColumnOfTotal(before, j);
      ColumnOfTotal(after, j);
      ColumnOfTotal(diffs, j);
      ColumnOfDifferences(before, after, j, Total(before)[j], Total(after)[j], Total(diffs)[j]);
    }
  }

  /** Adding up the differences of the series is the difference of their totals. */
  lemma {:induction false} AggregateOfDifferences(before: RuntimeHistogram, after: RuntimeHistogram)
    requires Comparable(before, after)
    ensures |before.buckets| == |after.buckets|
    ensures forall k :: 0 <= k < |before.series| ==> |before.series[k].1| == |after.series[k].1|
    ensures Aggregate(Differences(before.series, after.series)) == Some(Difference(before.buckets, after.buckets))
    ensures IsCumulative(Difference(before.buckets, after.buckets))
  {
    forall k | 0 <= k < |before.series| ensures |before.series[k].1| == |after.series[k].1| {
      ComparableShapes(before, after, k);
    }
    var diffs := Differences(before.series, after.series);
    DifferencesCompatible(before, after);
    TotalOfDifferences(before.series, after.series, diffs);
    TotalIsCumulative(diffs);
  }

  lemma {:induction false} DifferencesCompatible(before: RuntimeHistogram, after: RuntimeHistogram)
    requires Comparable(before, after)
    requires forall k :: 0 <= k < |before.series| ==> |before.series[k].1| == |after.series[k].1|
    ensures Compatible(Differences(before.series, after.series))
    ensures |before.buckets| == |Differences(before.series, after.series)[0].1|
  {
    var diffs := Differences(before.series, after.series);
    ComparableShapes(before, after, 0);
    forall k | 0 <= k < |diffs| ensures IsCumulative(diffs[k].1) && SameBounds(diffs[0].1, diffs[k].1) {
      ComparableShapes(before, after, k);
      DifferenceIsCumulative(before.series[k].1, after.series[k].1);
    }
  }

  /** The difference of every pair of series, unless one of them has none. */
  method DifferenceSeries(before: Series, after: Series) returns (intervalSeries: Option<Series>)
    requires |before| == |after|
    ensures intervalSeries.Some? <==> Pairable(before, after)
    ensures Pairable(before, after) ==> intervalSeries == Some(Differences(before, after))
  {
    var done: Series := [];
    for k := 0 to |before|
      invariant |done| == k
      invariant forall i :: 0 <= i < k ==>
        && before[i].0 == after[i].0 && Differencable(before[i].1, after[i].1)
        && done[i] == (before[i].0, Difference(before[i].1, after[i].1))
    {
      if before[k].0 != after[k].0 { return None; }
      var delta := DifferenceHistogramBuckets(before[k].1, after[k].1);
      if delta.None? { return None; }
      done := done + [(before[k].0, delta.value)];
    }
    assert Pairable(before, after) && done == Differences(before, after);
    return Some(done);
  }

  /** The live differencing of two snapshots. */
  method IntervalBetween(before: RuntimeHistogram, after: RuntimeHistogram) returns (interval: Option<Interval>)
    ensures interval == IntervalOf(before, after)
  {
    var beforeValid := HistogramIsValid(before);
    var afterValid := HistogramIsValid(after);
    if !beforeValid || !afterValid || before.seriesCount != after.seriesCount || |before.buckets| != |after.buckets| {
      if Comparable(before, after) { ComparableShapes(before, after, 0); }
      return None;
    }
    if |before.series| != before.seriesCount || |after.series| != after.seriesCount { return None; }
    var intervalSeries := DifferenceSeries(before.series, after.series);
    if intervalSeries.None? { return None; }
    AggregateOfDifferences(before, after);
    var cumulative := AggregateHistogramSeries(intervalSeries.value);
    if cumulative.None? { return None; }
    interval := Summarize(cumulative.value);
  }

  /** Samples and the three reported quantiles of a cumulative difference, if it has samples. */
  method Summarize(cumulative: seq<Bucket>) returns (interval: Option<Interval>)
    requires IsCumulative(cumulative)
    ensures interval == SummaryOf(cumulative)
  {
    var samples := LastCount(cumulative);
    if samples <= 0.0 { return None; }
    QuantilesExist(cumulative);
    var p50 := QuantileSeconds(cumulative, 0.50);
    var p95 := QuantileSeconds(cumulative, 0.95);
    var p99 := QuantileSeconds(cumulative, 0.99);
    if p50.None? || p95.None? || p99.None? { return None; }
    return Some(Interval(samples, p50.value * 1000.0, p95.value * 1000.0, p99.value * 1000.0));
  }

  lemma {:induction false} QuantilesExist(cumulative: seq<Bucket>)
    requires IsCumulative(cumulative) && LastCount(cumulative) > 0.0
    ensures var p50, p95, p99 :=
        QuantileSeconds(cumulative, 0.50), QuantileSeconds(cumulative, 0.95), QuantileSeconds(cumulative, 0.99);
      && p50.Some? && p95.Some? && p99.Some?
      && 0.0 <= p50.value <= p95.value <= p99.value <= cumulative[|cumulative| - 2].upper.value
  {
    QuantileBounded(cumulative, 0.50);
    QuantileBounded(cumulative, 0.99);
    QuantileMonotone(cumulative, 0.50, 0.95);
    QuantileMonotone(cumulative, 0.95, 0.99);
  }

  /** The test a stored interval has to pass. */
  predicate StoredIntervalValid(interval: Interval) {
    && interval.samples > 0.0 && interval.p50Ms >= 0.0
    && interval.p50Ms <= interval.p95Ms && interval.p95Ms <= interval.p99Ms
  }

  lemma {:induction false} SummaryIsStorable(cumulative: seq<Bucket>)
    requires IsCumulative(cumulative) && SummaryOf(cumulative).Some?
    ensures StoredIntervalValid(SummaryOf(cumulative).value)
    ensures SummaryOf(cumulative).value.p99Ms <= cumulative[|cumulative| - 2].upper.value * 1000.0
  {
    QuantilesExist(cumulative);
  }

  /** Every interval the live code produces passes the test it will face when stored, and stays
      below the largest finite bound of the two snapshots. */
  lemma {:induction false} LiveIntervalsAreStorable(before: RuntimeHistogram, after: RuntimeHistogram)
    requires IntervalOf(before, after).Some?
    ensures StoredIntervalValid(IntervalOf(before, after).value)
    ensures IntervalOf(before, after).value.p99Ms <= before.buckets[|before.buckets| - 2].upper.value * 1000.0
  {
    AggregateOfDifferences(before, after);
    SummaryIsStorable(Difference(before.buckets, after.buckets));
  }

  /** An interval exists exactly when the snapshots are comparable and samples arrived, and then it
      holds the total after minus the total before. */
  lemma {:induction false} IntervalSamples(before: RuntimeHistogram, after: RuntimeHistogram)
    ensures IntervalOf(before, after).Some? <==>
      Comparable(before, after) && LastCount(before.buckets) < LastCount(after.buckets)
    ensures IntervalOf(before, after).Some? ==>
      IntervalOf(before, after).value.samples == LastCount(after.buckets) - LastCount(before.buckets)
    ensures Comparable(before, after) ==> LastCount(before.buckets) <= LastCount(after.buckets)
  {
    if Comparable(before, after) {
      AggregateOfDifferences(before, after);
      var delta := Difference(before.buckets, after.buckets);
      assert delta[|delta| - 1].count >= 0.0;
    }
  }

  // ---- Chains of snapshots ----

  lemma {:induction false} DifferencableChains(a: seq<Bucket>, b: seq<Bucket>, c: seq<Bucket>)
    requires Differencable(a, b) && Differencable(b, c)
    ensures Differencable(a, c)
  {
  }

  lemma {:induction false} ComparableChains(a: RuntimeHistogram, b: RuntimeHistogram, c: RuntimeHistogram)
    requires Comparable(a, b) && Comparable(b, c)
    ensures Comparable(a, c)
  {
    forall k | 0 <= k < |a.series|
      ensures a.series[k].0 == c.series[k].0 && Differencable(a.series[k].1, c.series[k].1)
    {
      assert Differencable(a.series[k].1, b.series[k].1) && Differencable(b.series[k].1, c.series[k].1);
      DifferencableChains(a.series[k].1, b.series[k].1, c.series[k].1);
    }
  }

  /** Samples that arrived between two snapshots; no interval means no new sample. */
  ghost function NewSamples(before: RuntimeHistogram, after: RuntimeHistogram): real {
    match IntervalOf(before, after) case None => 0.0 case Some(interval) => interval.samples
  }

  ghost function Along<T>(items: seq<T>, gain: (T, T) -> real): real {
    if |items| <= 1 then 0.0
    else Along(items[..|items| - 1], gain) + gain(items[|items| - 2], items[|items| - 1])
  }

  ghost predicate Linked<T>(items: seq<T>, link: (T, T) -> bool) {
    && |items| > 1 && link(items[|items| - 2], items[|items| - 1])
    && (|items| > 2 ==> Linked(items[..|items| - 1], link))
  }

  lemma {:induction false} AlongAddsUp<T(!new)>(items: seq<T>, link: (T, T) -> bool, gain: (T, T) -> real)
    requires Linked(items, link)
    requires forall a, b, c :: link(a, b) && link(b, c) ==> link(a, c) && gain(a, c) == gain(a, b) + gain(b, c)
    ensures link(items[0], items[|items| - 1]) && Along(items, gain) == gain(items[0], items[|items| - 1])
  {
    var last := |items| - 1;
    var init := items[..last];
    if last == 1 {
      assert Along(init, gain) == 0.0;
    } else {
      AlongAddsUp(init, link, gain);
      assert init[0] == items[0] && init[|init| - 1] == items[last - 1];
    }
  }

  lemma {:induction false} NewSamplesAddUp(a: RuntimeHistogram, b: RuntimeHistogram, c: RuntimeHistogram)
    requires Comparable(a, b) && Comparable(b, c)
    ensures NewSamples(a, c) == NewSamples(a, b) + NewSamples(b, c)
  {
    ComparableChains(a, b, c);
    IntervalSamples(a, b);
    IntervalSamples(b, c);
    IntervalSamples(a, c);
  }

  /** Along a chain of comparable snapshots the first and the last are comparable, and the interval
      between them holds exactly the samples of the intervals in between. */
  lemma {:induction false} IntervalsAddUp(snapshots: seq<RuntimeHistogram>)
    requires Linked(snapshots, Comparable)
    ensures Comparable(snapshots[0], snapshots[|snapshots| - 1])
    ensures Along(snapshots, NewSamples) == NewSamples(snapshots[0], snapshots[|snapshots| - 1])
  {
    forall a, b, c | Comparable(a, b) && Comparable(b, c)
      ensures Comparable(a, c) && NewSamples(a, c) == NewSamples(a, b) + NewSamples(b, c)
    {
      ComparableChains(a, b, c);
      NewSamplesAddUp(a, b, c);
    }
    AlongAddsUp(snapshots, Comparable, NewSamples);
  }
}
