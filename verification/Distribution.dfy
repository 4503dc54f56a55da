/** Order statistics of a sample. Measurements are reals, so the ordering facts hold without the
    rounding of floating-point sums. */
module Distribution {
  import opened Common
  import Sorting

  datatype Summary = Summary(samples: nat, min: real, mean: real, p50: real, p95: real, p99: real, max: real)

  predicate RealLeq(a: real, b: real) { a <= b }

  function CeilDiv(a: nat, b: nat): nat
    requires b > 0
  {
    if a % b == 0 then a / b else a / b + 1
  }

  /** Position, counted from one, of the nearest-rank percentile. */
  function Rank(percentile: nat, n: nat): nat { CeilDiv(SaturatingMul(percentile, n), 100) }

  function NearestRank(values: seq<real>, percentile: nat): real
    requires values != []
  {
    var rank := Rank(percentile, |values|);
    values[Min(if rank == 0 then 0 else rank - 1, |values| - 1)]
  }

  function Sum(values: seq<real>): real {
    if values == [] then 0.0 else Sum(values[..|values| - 1]) + values[|values| - 1]
  }

  function DistributionOf(values: seq<real>): Option<Summary> {
    if values == [] then None
    else
      var sorted := Sorting.Sort(values, RealLeq);
      var n := |sorted|;
      Some(Summary(n, sorted[0], Sum(sorted) / n as real,
                   NearestRank(sorted, 50), NearestRank(sorted, 95), NearestRank(sorted, 99), sorted[n - 1]))
  }

  /** The list of samples is sorted, added up and sampled at its ranks. */
  method Distribute(samples: seq<real>) returns (summary: Option<Summary>)
    ensures summary == DistributionOf(samples)
  {
    var values := Sorting.Sort(samples, RealLeq);
    if values == [] { return None; }
    var sum := 0.0;
    for i := 0 to |values|
      invariant sum == Sum(values[..i])
    {
      assert values[..i + 1][..i] == values[..i];
      sum := sum + values[i];
    }
    assert values[..|values|] == values;
    return Some(Summary(|values|, values[0], sum / |values| as real,
                        NearestRank(values, 50), NearestRank(values, 95), NearestRank(values, 99), values[|values| - 1]));
  }

  /** The distribution does not depend on the order in which the samples arrived. */
  lemma {:induction false} DistributionForgetsOrder(a: seq<real>, b: seq<real>)
    requires multiset(a) == multiset(b)
    ensures DistributionOf(a) == DistributionOf(b)
  {
    assert |multiset(a)| == |a| && |multiset(b)| == |b|;
    Sorting.SortForgetsOrder(a, b, RealLeq);
  }

  lemma {:induction false} SumBounds(values: seq<real>, lo: real, hi: real)
    requires forall i :: 0 <= i < |values| ==> lo <= values[i] <= hi
    ensures lo * |values| as real <= Sum(values) <= hi * |values| as real
  {
    if values != [] { SumBounds(values[..|values| - 1], lo, hi); }
  }

  lemma {:induction false} DivideBounds(lo: real, x: real, hi: real, n: real)
    requires n > 0.0 && lo * n <= x <= hi * n
    ensures lo <= x / n <= hi
  {
    assert (x / n) * n == x;
    assert (x / n - lo) * n >= 0.0 && (hi - x / n) * n >= 0.0;
  }

  lemma {:induction false} RankBounds(n: nat)
    requires 0 < n <= U64_MAX / 100
    ensures 1 <= Rank(50, n) <= Rank(95, n) <= Rank(99, n) <= n
  {
  }

  lemma {:induction false} RanksOrdered(sorted: seq<real>)
    requires 0 < |sorted| <= U64_MAX / 100 && Sorting.Ordered(sorted, RealLeq)
    ensures sorted[0] <= NearestRank(sorted, 50) <= NearestRank(sorted, 95) <= NearestRank(sorted, 99) <= sorted[|sorted| - 1]
  {
    RankBounds(|sorted|);
    assert forall i, j :: 0 <= i < j < |sorted| ==> RealLeq(sorted[i], sorted[j]);
  }

  lemma {:induction false} SumWithin(sorted: seq<real>, lo: real, hi: real)
    requires sorted != [] && Sorting.Ordered(sorted, RealLeq) && lo == sorted[0] && hi == sorted[|sorted| - 1]
    ensures lo * |sorted| as real <= Sum(sorted) <= hi * |sorted| as real
  {
    forall i | 0 <= i < |sorted| ensures lo <= sorted[i] <= hi {
      assert i > 0 ==> RealLeq(sorted[0], sorted[i]);
      assert i < |sorted| - 1 ==> RealLeq(sorted[i], sorted[|sorted| - 1]);
    }
    SumBounds(sorted, lo, hi);
  }

  lemma {:induction false} MeanWithin(sorted: seq<real>, lo: real, hi: real)
    requires sorted != [] && Sorting.Ordered(sorted, RealLeq) && lo == sorted[0] && hi == sorted[|sorted| - 1]
    ensures lo <= Sum(sorted) / |sorted| as real <= hi
  {
    SumWithin(sorted, lo, hi);
    DivideBounds(lo, Sum(sorted), hi, |sorted| as real);
  }

  /** The order statistics are ordered and the mean lies between the extremes. */
  lemma {:induction false} DistributionOrdered(values: seq<real>)
    requires 0 < |values| <= U64_MAX / 100
    ensures DistributionOf(values).Some?
    ensures var d := DistributionOf(values).value;
      d.samples == |values| && d.min <= d.p50 <= d.p95 <= d.p99 <= d.max && d.min <= d.mean <= d.max
  {
    Sorting.SortOrdered(values, RealLeq);
    var sorted := Sorting.Sort(values, RealLeq);
    RanksOrdered(sorted);
    MeanWithin(sorted, sorted[0], sorted[|sorted| - 1]);
  }

  function CountAtMost(values: seq<real>, threshold: real): nat {
    if values == [] then 0
    else CountAtMost(values[..|values| - 1], threshold) + if values[|values| - 1] <= threshold then 1 else 0
  }

  lemma {:induction false} CountIsFold(values: seq<real>, threshold: real, step: (int, real) -> int)
    requires forall n: int, x: real :: step(n, x) == if x <= threshold then n + 1 else n
    ensures CountAtMost(values, threshold) == Sorting.Fold(step, 0, values)
  {
    if values != [] {
      var last := |values| - 1;
      CountIsFold(values[..last], threshold, step);
      assert values == values[..last] + [values[last]];
      Sorting.FoldAppend(step, 0, values[..last], [values[last]]);
      assert Sorting.Fold(step, Sorting.Fold(step, 0, values[..last]), [values[last]])
          == step(Sorting.Fold(step, 0, values[..last]), values[last]);
    }
  }

  lemma {:induction false} CountForgetsOrder(values: seq<real>, other: seq<real>, threshold: real)
    requires multiset(values) == multiset(other)
    ensures CountAtMost(values, threshold) == CountAtMost(other, threshold)
  {
    var step := (n: int, x: real) => if x <= threshold then n + 1 else n;
    CountIsFold(values, threshold, step);
    CountIsFold(other, threshold, step);
    Sorting.CommutingFold(step, 0, values, other);
  }

  /** In an ordered list the elements up to a threshold are a prefix. */
  lemma {:induction false} CountInOrdered(sorted: seq<real>, threshold: real, rank: nat)
    requires Sorting.Ordered(sorted, RealLeq) && 1 <= rank <= |sorted|
    ensures sorted[rank - 1] <= threshold <==> CountAtMost(sorted, threshold) >= rank
  {
    var last := |sorted| - 1;
    CountAtMostLength(sorted, threshold);
    if rank <= last {
      CountInOrdered(sorted[..last], threshold, rank);
      assert RealLeq(sorted[rank - 1], sorted[last]);
    } else {
      if sorted[last] <= threshold { AllCount(sorted, threshold); }
      CountAtMostLength(sorted[..last], threshold);
    }
  }

  lemma {:induction false} CountAtMostLength(values: seq<real>, threshold: real)
    ensures CountAtMost(values, threshold) <= |values|
  {
    if values != [] { CountAtMostLength(values[..|values| - 1], threshold); }
  }

  lemma {:induction false} AllCount(sorted: seq<real>, threshold: real)
    requires Sorting.Ordered(sorted, RealLeq) && sorted != [] && sorted[|sorted| - 1] <= threshold
    ensures CountAtMost(sorted, threshold) == |sorted|
  {
    var last := |sorted| - 1;
    if last > 0 {
      assert RealLeq(sorted[last - 1], sorted[last]);
      AllCount(sorted[..last], threshold);
    }
  }

  lemma {:induction false} P95InOrdered(sorted: seq<real>, threshold: real)
    requires 0 < |sorted| <= U64_MAX / 100 && Sorting.Ordered(sorted, RealLeq)
    ensures NearestRank(sorted, 95) <= threshold <==> CountAtMost(sorted, threshold) >= CeilDiv(95 * |sorted|, 100)
  {
    RankBounds(|sorted|);
    CountInOrdered(sorted, threshold, Rank(95, |sorted|));
  }

  /** The 95th percentile is at most a threshold iff at least 95 of every hundred samples, rounded
      up, are. */
  lemma {:induction false} P95WithinThreshold(values: seq<real>, threshold: real)
    requires 0 < |values| <= U64_MAX / 100
    ensures DistributionOf(values).Some?
    ensures DistributionOf(values).value.p95 <= threshold
       <==> CountAtMost(values, threshold) >= CeilDiv(95 * |values|, 100)
  {
    var sorted := Sorting.Sort(values, RealLeq);
    Sorting.SortOrdered(values, RealLeq);
    P95InOrdered(sorted, threshold);
    CountForgetsOrder(values, sorted, threshold);
  }

  // ---- What the figures are ----

  lemma {:induction false} CountIs(values: seq<real>, threshold: real)
    ensures CountAtMost(values, threshold) == |Where(values, (x: real) => x <= threshold)|
  {
    if values != [] {
      CountIs(values[..|values| - 1], threshold);
      WhereGrows(values, (x: real) => x <= threshold);
    }
  }

  /** The smallest sample that so many of every hundred samples do not exceed. */
  ghost predicate IsPercentile(values: seq<real>, percentile: nat, v: real) {
    && v in values && percentile * |values| <= 100 * CountAtMost(values, v)
    && forall u :: u in values && u < v ==> 100 * CountAtMost(values, u) < percentile * |values|
  }

  lemma {:induction false} PercentileIsUnique(values: seq<real>, percentile: nat, v: real, w: real)
    requires IsPercentile(values, percentile, v) && IsPercentile(values, percentile, w)
    ensures v == w
  {
  }

  lemma {:induction false} RankMeans(percentile: nat, n: nat, k: nat)
    requires 0 < percentile <= 100 && 0 < n <= U64_MAX / 100
    ensures 1 <= Rank(percentile, n) <= n
    ensures Rank(percentile, n) <= k <==> percentile * n <= 100 * k
  {
    assert percentile * n <= 100 * n <= U64_MAX;
    CeilDivMeans(percentile * n, k);
    CeilDivMeans(percentile * n, n);
    CeilDivMeans(percentile * n, 0);
    assert percentile * n > 0;
  }

  lemma {:induction false} CeilDivMeans(a: nat, k: nat)
    ensures CeilDiv(a, 100) <= k <==> a <= 100 * k
  {
  }

  lemma {:induction false} NearestRankIs(sorted: seq<real>, percentile: nat)
    requires 0 < |sorted| <= U64_MAX / 100 && Sorting.Ordered(sorted, RealLeq) && 0 < percentile <= 100
    ensures IsPercentile(sorted, percentile, NearestRank(sorted, percentile))
  {
    var n, rank, v := |sorted|, Rank(percentile, |sorted|), NearestRank(sorted, percentile);
    RankMeans(percentile, n, n);
    assert v == sorted[rank - 1];
    CountInOrdered(sorted, v, rank);
    RankMeans(percentile, n, CountAtMost(sorted, v));
    forall u | u in sorted && u < v ensures 100 * CountAtMost(sorted, u) < percentile * n {
      CountInOrdered(sorted, u, rank);
      RankMeans(percentile, n, CountAtMost(sorted, u));
    }
  }

  lemma {:induction false} PercentileForgetsOrder(values: seq<real>, other: seq<real>, percentile: nat, v: real)
    requires multiset(values) == multiset(other) && IsPercentile(values, percentile, v)
    ensures IsPercentile(other, percentile, v)
  {
    assert |multiset(values)| == |values| && |multiset(other)| == |other|;
    CountForgetsOrder(values, other, v);
    assert v in multiset(values) && v in other;
    forall u | u in other && u < v ensures 100 * CountAtMost(other, u) < percentile * |other| {
      assert u in multiset(other) && u in values;
      CountForgetsOrder(values, other, u);
    }
  }

  lemma {:induction false} SumIsFold(values: seq<real>, step: (real, real) -> real)
    requires forall a: real, x: real :: step(a, x) == a + x
    ensures Sum(values) == Sorting.Fold(step, 0.0, values)
  {
    if values != [] {
      var last := |values| - 1;
      SumIsFold(values[..last], step);
      assert values == values[..last] + [values[last]];
      Sorting.FoldAppend(step, 0.0, values[..last], [values[last]]);
      assert Sorting.Fold(step, Sorting.Fold(step, 0.0, values[..last]), [values[last]])
          == step(Sorting.Fold(step, 0.0, values[..last]), values[last]);
    }
  }

  lemma {:induction false} SumForgetsOrder(values: seq<real>, other: seq<real>)
    requires multiset(values) == multiset(other)
    ensures Sum(values) == Sum(other)
  {
    var step := (a: real, x: real) => a + x;
    SumIsFold(values, step);
    SumIsFold(other, step);
    Sorting.CommutingFold(step, 0.0, values, other);
  }

  ghost predicate AreExtremes(values: seq<real>, lo: real, hi: real) {
    lo in values && hi in values && forall x :: x in values ==> lo <= x <= hi
  }

  ghost predicate IsMean(values: seq<real>, mean: real) { mean * |values| as real == Sum(values) }

  /** Samples, extremes, mean and three percentiles of some values. */
  ghost predicate Describes(d: Summary, values: seq<real>) {
    && d.samples == |values| && AreExtremes(values, d.min, d.max) && IsMean(values, d.mean)
    && IsPercentile(values, 50, d.p50) && IsPercentile(values, 95, d.p95) && IsPercentile(values, 99, d.p99)
  }

  lemma {:induction false} EndsAreExtremes(sorted: seq<real>)
    requires sorted != [] && Sorting.Ordered(sorted, RealLeq)
    ensures AreExtremes(sorted, sorted[0], sorted[|sorted| - 1])
  {
    forall x | x in sorted ensures sorted[0] <= x <= sorted[|sorted| - 1] {
      var i :| 0 <= i < |sorted| && sorted[i] == x;
      assert i > 0 ==> RealLeq(sorted[0], sorted[i]);
      assert i < |sorted| - 1 ==> RealLeq(sorted[i], sorted[|sorted| - 1]);
    }
  }

  lemma {:induction false} QuotientIsMean(values: seq<real>, mean: real)
    requires values != [] && mean == Sum(values) / |values| as real
    ensures IsMean(values, mean)
  {
  }

  lemma {:induction false} SameElements(values: seq<real>, other: seq<real>, lo: real, hi: real)
    requires multiset(values) == multiset(other) && AreExtremes(values, lo, hi)
    ensures |values| == |other| && AreExtremes(other, lo, hi)
  {
    assert |multiset(values)| == |values| && |multiset(other)| == |other|;
    assert forall x :: x in other <==> x in multiset(other);
    assert forall x :: x in values <==> x in multiset(values);
  }

  lemma {:induction false} PercentileOf(values: seq<real>, sorted: seq<real>, percentile: nat, v: real)
    requires 0 < |sorted| <= U64_MAX / 100 && Sorting.Ordered(sorted, RealLeq) && multiset(sorted) == multiset(values)
    requires 0 < percentile <= 100 && v == NearestRank(sorted, percentile)
    ensures IsPercentile(values, percentile, v)
  {
    NearestRankIs(sorted, percentile);
    PercentileForgetsOrder(sorted, values, percentile, v);
  }

  lemma {:induction false} MeanOf(values: seq<real>, sorted: seq<real>, mean: real)
    requires sorted != [] && |sorted| == |values| && multiset(sorted) == multiset(values) && mean == Sum(sorted) / |sorted| as real
    ensures IsMean(values, mean)
  {
    QuotientIsMean(sorted, mean);
    SumForgetsOrder(sorted, values);
  }

  lemma {:induction false} SortedDescribes(values: seq<real>, sorted: seq<real>, d: Summary)
    requires 0 < |sorted| <= U64_MAX / 100 && Sorting.Ordered(sorted, RealLeq) && multiset(sorted) == multiset(values)
    requires d.samples == |sorted| && d.min == sorted[0] && d.max == sorted[|sorted| - 1] && d.mean == Sum(sorted) / |sorted| as real
    requires d.p50 == NearestRank(sorted, 50) && d.p95 == NearestRank(sorted, 95) && d.p99 == NearestRank(sorted, 99)
    ensures Describes(d, values)
  {
    EndsAreExtremes(sorted);
    SameElements(sorted, values, d.min, d.max);
    MeanOf(values, sorted, d.mean);
    PercentileOf(values, sorted, 50, d.p50);
    PercentileOf(values, sorted, 95, d.p95);
    PercentileOf(values, sorted, 99, d.p99);
  }

  /** The distribution describes its samples, whatever their order. */
  lemma {:induction false} DistributionIs(values: seq<real>)
    requires |values| <= U64_MAX / 100
    ensures DistributionOf(values).Some? <==> values != []
    ensures values != [] ==> Describes(DistributionOf(values).value, values)
  {
    if values != [] {
      Sorting.SortOrdered(values, RealLeq);
      SortedDescribes(values, Sorting.Sort(values, RealLeq), DistributionOf(values).value);
    }
  }
}
