/** What a reported quantile of a cumulative histogram is: the point of the line between the two ends of
    a bucket at which the rank is reached. */
module QuantileEstimate {
  import opened Common
  import opened Histogram

  /** Bucket `index` is the one in which a rank falls. */
  ghost predicate RankFallsIn(buckets: seq<Bucket>, rank: real, index: nat) {
    index < |buckets| && rank <= buckets[index].count && if index == 0 then rank > 0.0 else rank > buckets[index - 1].count
  }

  /** In a finite bucket the value divides the width as the rank divides the samples; the bucket without
      upper bound gives the bound before it. */
  ghost predicate DividesBucket(buckets: seq<Bucket>, rank: real, index: nat, value: real)
    requires IsCumulative(buckets) && index < |buckets|
  {
    if index == |buckets| - 1 then value == buckets[index - 1].upper.value
    else
      var lower, below := if index == 0 then 0.0 else buckets[index - 1].upper.value, if index == 0 then 0.0 else buckets[index - 1].count;
      (value - lower) * (buckets[index].count - below) == (buckets[index].upper.value - lower) * (rank - below)
  }

  ghost predicate IsEstimate(buckets: seq<Bucket>, rank: real, value: real)
    requires IsCumulative(buckets)
  {
    exists index: nat :: RankFallsIn(buckets, rank, index) && DividesBucket(buckets, rank, index, value)
  }

  lemma {:induction false} ShareOfWidth(lower: real, upper: real, x: real, n: real)
    requires n > 0.0
    ensures (Interpolate(lower, upper, x, n) - lower) * n == (upper - lower) * x
  {
    var w := (upper - lower) * x;
    assert w / n * n == w;
  }

  /** Ends and counts of a bucket, as the program reads them. */
  lemma {:induction false} BucketEnds(buckets: seq<Bucket>, index: nat)
    requires IsCumulative(buckets) && index < |buckets|
    ensures LowerCount(buckets, index) == if index == 0 then 0.0 else buckets[index - 1].count
    ensures index < |buckets| - 1 ==> LowerBound(buckets, index) == if index == 0 then 0.0 else buckets[index - 1].upper.value
    ensures UpperBound(buckets, index) == buckets[if index < |buckets| - 1 then index else index - 1].upper.value
  {
  }

  lemma {:induction false} FormulaDivides(buckets: seq<Bucket>, rank: real, index: nat, value: real)
    requires IsCumulative(buckets) && index < |buckets| && LowerCount(buckets, index) < rank <= buckets[index].count
    requires value == if index == |buckets| - 1 then UpperBound(buckets, index)
      else Interpolate(LowerBound(buckets, index), UpperBound(buckets, index),
             rank - LowerCount(buckets, index), buckets[index].count - LowerCount(buckets, index))
    ensures RankFallsIn(buckets, rank, index) && DividesBucket(buckets, rank, index, value)
  {
    BucketEnds(buckets, index);
    if index < |buckets| - 1 {
      ShareOfWidth(LowerBound(buckets, index), UpperBound(buckets, index), rank - LowerCount(buckets, index),
                   buckets[index].count - LowerCount(buckets, index));
    }
  }

  lemma {:induction false} RankIsEstimate(buckets: seq<Bucket>, rank: real)
    requires IsCumulative(buckets) && 0.0 < rank <= buckets[|buckets| - 1].count
    ensures QuantileAtRank(buckets, rank).Some? && IsEstimate(buckets, rank, QuantileAtRank(buckets, rank).value)
  {
    var index := RankFormula(buckets, rank);
    FormulaDivides(buckets, rank, index, QuantileAtRank(buckets, rank).value);
  }

  lemma {:induction false} ShareIsRank(buckets: seq<Bucket>, quantile: real, rank: real)
    requires buckets != [] && rank == quantile * buckets[|buckets| - 1].count
    ensures QuantileSeconds(buckets, quantile) == QuantileAtRank(buckets, rank)
  {
  }

  /** Every quantile of a histogram with samples is such an estimate at its share of the samples. */
  lemma {:induction false} QuantileIsEstimate(buckets: seq<Bucket>, quantile: real, rank: real)
    requires IsCumulative(buckets) && buckets[|buckets| - 1].count > 0.0 && 0.0 < quantile <= 1.0
    requires rank == quantile * buckets[|buckets| - 1].count
    ensures QuantileSeconds(buckets, quantile).Some? && IsEstimate(buckets, rank, QuantileSeconds(buckets, quantile).value)
  {
    RankBounds(quantile, quantile, buckets[|buckets| - 1].count);
    ShareIsRank(buckets, quantile, rank);
    RankIsEstimate(buckets, rank);
  }

  lemma {:induction false} SamePoint(v: real, w: real, lower: real, n: real, x: real)
    requires n > 0.0 && (v - lower) * n == x && (w - lower) * n == x
    ensures v == w
  {
    assert (v - w) * n == 0.0;
  }

  lemma {:induction false} FallsInOne(buckets: seq<Bucket>, rank: real, i: nat, j: nat)
    requires IsCumulative(buckets) && RankFallsIn(buckets, rank, i) && RankFallsIn(buckets, rank, j)
    ensures i == j
  {
  }

  lemma {:induction false} DividesOnce(buckets: seq<Bucket>, rank: real, index: nat, v: real, w: real)
    requires IsCumulative(buckets) && RankFallsIn(buckets, rank, index)
    requires DividesBucket(buckets, rank, index, v) && DividesBucket(buckets, rank, index, w)
    ensures v == w
  {
    if index < |buckets| - 1 {
      var lower, below := if index == 0 then 0.0 else buckets[index - 1].upper.value, if index == 0 then 0.0 else buckets[index - 1].count;
      SamePoint(v, w, lower, buckets[index].count - below, (buckets[index].upper.value - lower) * (rank - below));
    }
  }

  /** There is only one. */
  lemma {:induction false} EstimateIsUnique(buckets: seq<Bucket>, rank: real, v: real, w: real)
    requires IsCumulative(buckets) && IsEstimate(buckets, rank, v) && IsEstimate(buckets, rank, w)
    ensures v == w
  {
    var i: nat :| RankFallsIn(buckets, rank, i) && DividesBucket(buckets, rank, i, v);
    var j: nat :| RankFallsIn(buckets, rank, j) && DividesBucket(buckets, rank, j, w);
    FallsInOne(buckets, rank, i, j);
    DividesOnce(buckets, rank, i, v, w);
  }

  /** A reported quantile, in milliseconds. */
  ghost predicate Reports(gained: seq<Bucket>, rank: real, ms: real)
    requires IsCumulative(gained)
  {
    exists seconds: real :: IsEstimate(gained, rank, seconds) && ms == seconds * 1000.0
  }

  lemma {:induction false} QuantileReported(gained: seq<Bucket>, quantile: real, rank: real, ms: real)
    requires IsCumulative(gained) && gained[|gained| - 1].count > 0.0 && 0.0 < quantile <= 1.0
    requires rank == quantile * gained[|gained| - 1].count && ms == QuantileSeconds(gained, quantile).GetOr(0.0) * 1000.0
    ensures Reports(gained, rank, ms)
  {
    QuantileIsEstimate(gained, quantile, rank);
  }

  /** Samples and quantiles of an interval, over the buckets of what was gained. */
  ghost predicate EstimatedFrom(i: Interval, gained: seq<Bucket>)
    requires IsCumulative(gained)
  {
    && i.samples == gained[|gained| - 1].count
    && Reports(gained, 0.50 * i.samples, i.p50Ms) && Reports(gained, 0.95 * i.samples, i.p95Ms) && Reports(gained, 0.99 * i.samples, i.p99Ms)
  }

  lemma {:induction false} SummaryReports(gained: seq<Bucket>, interval: Option<Interval>)
    requires IsCumulative(gained) && SummaryOf(gained) == interval && interval.Some?
    ensures EstimatedFrom(interval.value, gained)
  {
    var i := interval.value;
    QuantileReported(gained, 0.50, 0.50 * i.samples, i.p50Ms);
    QuantileReported(gained, 0.95, 0.95 * i.samples, i.p95Ms);
    QuantileReported(gained, 0.99, 0.99 * i.samples, i.p99Ms);
  }

  lemma {:induction false} IntervalIsSummary(before: RuntimeHistogram, after: RuntimeHistogram)
    requires IntervalOf(before, after).Some?
    ensures Comparable(before, after) && |before.buckets| == |after.buckets|
    ensures IntervalOf(before, after) == SummaryOf(Difference(before.buckets, after.buckets))
  {
  }

  /** The three quantiles of an interval, in milliseconds, are the estimates at 50, 95 and 99 percent of
      its samples, over the buckets by which the later snapshot exceeds the earlier one. */
  lemma {:induction false} IntervalIsEstimated(before: RuntimeHistogram, after: RuntimeHistogram, interval: Option<Interval>)
    requires IntervalOf(before, after) == interval && interval.Some?
    ensures |before.buckets| == |after.buckets| && IsCumulative(Difference(before.buckets, after.buckets))
    ensures EstimatedFrom(interval.value, Difference(before.buckets, after.buckets))
  {
    IntervalIsSummary(before, after);
    AggregateOfDifferences(before, after);
    SummaryReports(Difference(before.buckets, after.buckets), interval);
  }
}
