/** The fail-closed accumulation of one latency histogram: what is kept, why the order in which
    samples arrive does not matter, and the snapshot that comes out. */
module Collector {
  import opened Common
  import opened Families
  import H = Histogram
  import T = SampleText
  import Sorting

  // ---- The accumulator ----

  /** What a sample of a recognised histogram amounts to. */
  datatype Point = Spoiled | Point(schema: Schema, key: string, bound: Option<real>, value: real)

  function PointOf(r: Recognized, key: string, value: real, parse: string -> Option<Number>): Point {
    if value < 0.0 then Spoiled
    else match T.ParseKey(key, parse)
      case Err(_) => Spoiled
      case Ok((labelKey, bound)) => Point(r.schema, StoredKey(r, labelKey), bound, value)
  }

  type Row = map<Option<real>, real>

  /** The accumulator, its buckets seen as a table from series and bound to count. */
  datatype Table = Closed | Open(schema: Option<Schema>, cells: map<string, Row>)

  function RowAt(cells: map<string, Row>, key: string): Row { if key in cells then cells[key] else map[] }

  /** Enter a count under its series and bound; `None` when there is no room or the cell is taken. */
  function Enter(cells: map<string, Row>, key: string, bound: Option<real>, value: real): Option<map<string, Row>> {
    if key !in cells && |cells| >= H.MAX_SERIES then None
    else
      var row := RowAt(cells, key);
      if bound in row || |row| >= H.MAX_BUCKETS then None else Some(cells[key := row[bound := value]])
  }

  function Step(t: Table, p: Point): Table {
    if t.Closed? || p.Spoiled? || (t.schema.Some? && t.schema.value != p.schema) then Closed
    else match Enter(t.cells, p.key, p.bound, p.value)
      case None => Closed
      case Some(cells) => Open(Some(p.schema), cells)
  }

  /** A sample that would fit but for a limit: too many series, or too many buckets in one. */
  predicate TableFull(cells: map<string, Row>, key: string, bound: Option<real>) {
    || (key !in cells && |cells| >= H.MAX_SERIES)
    || (key in cells && bound !in cells[key] && |cells[key]| >= H.MAX_BUCKETS)
  }

  /** The sample met a limit: of its own text, or of the table. */
  predicate LimitReached(t: Table, r: Recognized, key: string, value: real, parse: string -> Option<Number>) {
    && t.Open? && (t.schema == None || t.schema == Some(r.schema)) && value >= 0.0
    && match T.ParseKey(key, parse)
       case Err(e) => e.LimitExceeded?
       case Ok((labelKey, bound)) => TableFull(t.cells, StoredKey(r, labelKey), bound)
  }

  function EnterBoth(cells: map<string, Row>, p: Point, q: Point): Option<map<string, Row>>
    requires p.Point? && q.Point?
  {
    match Enter(cells, p.key, p.bound, p.value)
    case None => None
    case Some(next) => Enter(next, q.key, q.bound, q.value)
  }

  lemma {:induction false} EntriesCommuteInRow(cells: map<string, Row>, p: Point, q: Point)
    requires p.Point? && q.Point? && p.key == q.key
    ensures EnterBoth(cells, p, q) == EnterBoth(cells, q, p)
  {
    var row := RowAt(cells, p.key);
    var x, y := row[p.bound := p.value], row[q.bound := q.value];
    assert cells[p.key := x].Keys == cells[p.key := y].Keys;
    assert |cells[p.key := x]| == |cells[p.key := x].Keys| == |cells[p.key := y]|;
    if p.bound != q.bound {
      var both := x[q.bound := q.value];
      assert both == y[p.bound := p.value];
      assert cells[p.key := x][p.key := both] == cells[p.key := y][p.key := both];
    }
  }

  lemma {:induction false} EntriesCommuteAcross(cells: map<string, Row>, p: Point, q: Point)
    requires p.Point? && q.Point? && p.key != q.key
    ensures EnterBoth(cells, p, q) == EnterBoth(cells, q, p)
  {
    var x, y := RowAt(cells, p.key)[p.bound := p.value], RowAt(cells, q.key)[q.bound := q.value];
    assert cells[p.key := x][q.key := y] == cells[q.key := y][p.key := x];
  }

  /** Two samples lead to the same table in either order, failures included. */
  lemma {:induction false} StepsCommute(t: Table, p: Point, q: Point)
    ensures Step(Step(t, p), q) == Step(Step(t, q), p)
  {
    if p.Point? && q.Point? && t.Open? {
      if p.key == q.key { EntriesCommuteInRow(t.cells, p, q); } else { EntriesCommuteAcross(t.cells, p, q); }
      TwoSteps(t, p, q);
      TwoSteps(t, q, p);
    }
  }

  lemma {:induction false} TwoSteps(t: Table, p: Point, q: Point)
    requires t.Open? && p.Point? && q.Point?
    ensures Step(Step(t, p), q)
         == if (t.schema == None || t.schema == Some(p.schema)) && p.schema == q.schema && EnterBoth(t.cells, p, q).Some?
            then Open(Some(p.schema), EnterBoth(t.cells, p, q).value) else Closed
  {
  }

  function RowOf(buckets: seq<H.Bucket>): Row {
    if buckets == [] then map[]
    else RowOf(buckets[..|buckets| - 1])[buckets[|buckets| - 1].upper := buckets[|buckets| - 1].count]
  }

  ghost predicate DistinctBounds(buckets: seq<H.Bucket>) {
    forall i, j :: 0 <= i < j < |buckets| ==> buckets[i].upper != buckets[j].upper
  }

  lemma {:induction false} RowFacts(buckets: seq<H.Bucket>)
    requires DistinctBounds(buckets)
    ensures |RowOf(buckets)| == |buckets|
    ensures forall b :: b in buckets ==> b.upper in RowOf(buckets) && RowOf(buckets)[b.upper] == b.count
    ensures forall u :: u in RowOf(buckets) ==> H.Bucket(u, RowOf(buckets)[u]) in buckets
  {
    if buckets != [] {
      var last := |buckets| - 1;
      var init := buckets[..last];
      RowFacts(init);
      assert buckets == init + [buckets[last]];
      forall i | 0 <= i < last ensures init[i].upper != buckets[last].upper {
        assert buckets[i] == init[i];
      }
    }
  }

  // ---- Listing a map in key order ----

  predicate IsLeast(k: string, keys: set<string>) {
    k in keys && forall j :: j in keys ==> Sorting.StringLeq(k, j)
  }

  lemma {:induction false} LeastOfMore(k: string, keys: set<string>, x: string)
    requires IsLeast(k, keys)
    ensures IsLeast(if Sorting.StringLeq(k, x) then k else x, keys + {x})
  {
    Sorting.StringLeqTotal(k, x);
    Sorting.StringLeqTotal(x, x);
    if !Sorting.StringLeq(k, x) {
      forall j | j in keys ensures Sorting.StringLeq(x, j) { Sorting.StringLeqTransitive(x, k, j); }
    }
  }

  lemma {:induction false} LeastKeyExists(keys: set<string>)
    requires keys != {}
    ensures exists k :: IsLeast(k, keys)
  {
    var x :| x in keys;
    var rest := keys - {x};
    if rest == {} {
      Sorting.StringLeqTotal(x, x);
      assert keys == {x} && IsLeast(x, keys);
    } else {
      LeastKeyExists(rest);
      var k :| IsLeast(k, rest);
      LeastOfMore(k, rest, x);
      assert rest + {x} == keys;
    }
  }

  ghost function KeyList(keys: set<string>): (r: seq<string>)
    ensures |r| == |keys| && forall i :: 0 <= i < |r| ==> r[i] in keys
  {
    if keys == {} then []
    else
      LeastKeyExists(keys);
      var k :| IsLeast(k, keys);
      [k] + KeyList(keys - {k})
  }

  lemma {:induction false} KeyListFront(keys: set<string>, k: string)
    requires IsLeast(k, keys)
    ensures KeyList(keys) == [k] + KeyList(keys - {k})
  {
    var j := KeyList(keys)[0];
    assert IsLeast(j, keys) && KeyList(keys) == [j] + KeyList(keys - {j});
    Sorting.StringLeqAntisymmetric(j, k);
  }

  /** A map listed in key order. */
  ghost function Entries(series: map<string, seq<H.Bucket>>, keys: seq<string>): (r: H.Series)
    requires forall i :: 0 <= i < |keys| ==> keys[i] in series
    ensures |r| == |keys| && forall i :: 0 <= i < |r| ==> r[i] == (keys[i], series[keys[i]])
  {
    seq(|keys|, i requires 0 <= i < |keys| => (keys[i], series[keys[i]]))
  }

  // ---- The snapshot of a table ----

  ghost function Items(row: Row): set<H.Bucket> { set u | u in row :: H.Bucket(u, row[u]) }

  ghost function Listing(items: set<H.Bucket>): (r: seq<H.Bucket>)
    ensures multiset(r) == multiset(items)
  {
    if items == {} then []
    else
      var x :| x in items;
      [x] + Listing(items - {x})
  }

  ghost function RowList(row: Row): seq<H.Bucket> { Sorting.Sort(Listing(Items(row)), H.BucketLeq) }

  ghost function Rows(cells: map<string, Row>): (r: map<string, seq<H.Bucket>>)
    ensures r.Keys == cells.Keys
  {
    map k | k in cells :: RowList(cells[k])
  }

  const EMPTY: H.RuntimeHistogram := H.RuntimeHistogram(0, [], [])

  /** The finished histogram: a function of the table alone. */
  ghost function FinishOf(t: Table): H.RuntimeHistogram {
    if t.Closed? || t.schema.None? then EMPTY
    else
      var rows := Rows(t.cells);
      H.SnapshotOf(Entries(rows, KeyList(rows.Keys))).GetOr(EMPTY)
  }

  lemma {:induction false} BucketOrder()
    ensures Sorting.TotalPreorder(H.BucketLeq)
  {
  }

  lemma {:induction false} BoundsTieFree(buckets: seq<H.Bucket>)
    requires DistinctBounds(buckets)
    ensures Sorting.TiesAreEqual(buckets, H.BucketLeq)
  {
    forall x, y | x in buckets && y in buckets && H.BucketLeq(x, y) && H.BucketLeq(y, x) ensures x == y {
      var i, j :| 0 <= i < |buckets| && 0 <= j < |buckets| && buckets[i] == x && buckets[j] == y;
    }
  }

  lemma {:induction false} BoundsCount(buckets: seq<H.Bucket>, b: H.Bucket)
    requires DistinctBounds(buckets)
    ensures multiset(buckets)[b] == if b in buckets then 1 else 0
  {
    if buckets != [] {
      assert buckets == [buckets[0]] + buckets[1..];
      BoundsCount(buckets[1..], b);
      forall i | 0 <= i < |buckets| - 1 ensures buckets[1..][i] != buckets[0] {
        assert buckets[0].upper != buckets[i + 1].upper;
      }
    }
  }

  lemma {:induction false} RowListSorts(buckets: seq<H.Bucket>)
    requires DistinctBounds(buckets)
    ensures RowList(RowOf(buckets)) == Sorting.Sort(buckets, H.BucketLeq)
  {
    RowFacts(buckets);
    var items := Items(RowOf(buckets));
    forall b: H.Bucket ensures multiset(buckets)[b] == multiset(items)[b] {
      BoundsCount(buckets, b);
      assert b in items <==> b in buckets;
    }
    assert multiset(buckets) == multiset(Listing(items));
    BucketOrder();
    BoundsTieFree(buckets);
    Sorting.SortForgetsOrder(buckets, Listing(items), H.BucketLeq);
  }

  lemma {:induction false} SortTwice(buckets: seq<H.Bucket>)
    requires DistinctBounds(buckets)
    ensures Sorting.Sort(Sorting.Sort(buckets, H.BucketLeq), H.BucketLeq) == Sorting.Sort(buckets, H.BucketLeq)
  {
    BucketOrder();
    BoundsTieFree(buckets);
    Sorting.SortForgetsOrder(buckets, Sorting.Sort(buckets, H.BucketLeq), H.BucketLeq);
  }

  // ---- The accumulator of the program ----

  ghost predicate AllDistinct(series: map<string, seq<H.Bucket>>) {
    forall k :: k in series ==> DistinctBounds(series[k])
  }

  ghost function CellsOf(series: map<string, seq<H.Bucket>>): (r: map<string, Row>)
    ensures r.Keys == series.Keys
  {
    map k | k in series :: RowOf(series[k])
  }

  lemma {:induction false} SameSize(series: map<string, seq<H.Bucket>>)
    ensures |CellsOf(series)| == |series|
  {
    assert |CellsOf(series).Keys| == |CellsOf(series)| && |series.Keys| == |series|;
  }

  predicate HasBound(buckets: seq<H.Bucket>, upper: Option<real>) {
    exists i :: 0 <= i < |buckets| && buckets[i].upper == upper
  }

  lemma {:induction false} RowHasBound(buckets: seq<H.Bucket>, upper: Option<real>)
    requires DistinctBounds(buckets)
    ensures upper in RowOf(buckets) <==> HasBound(buckets, upper)
    ensures |RowOf(buckets)| == |buckets|
  {
    RowFacts(buckets);
    if upper in RowOf(buckets) {
      var i :| 0 <= i < |buckets| && buckets[i] == H.Bucket(upper, RowOf(buckets)[upper]);
    }
    if HasBound(buckets, upper) {
      var i :| 0 <= i < |buckets| && buckets[i].upper == upper;
      assert buckets[i] in buckets;
    }
  }

  lemma {:induction false} RowGrown(buckets: seq<H.Bucket>, b: H.Bucket)
    requires DistinctBounds(buckets) && !HasBound(buckets, b.upper)
    ensures DistinctBounds(buckets + [b])
    ensures RowOf(buckets + [b]) == RowOf(buckets)[b.upper := b.count]
  {
    assert (buckets + [b])[..|buckets|] == buckets;
  }

  lemma {:induction false} DistinctReplaced(series: map<string, seq<H.Bucket>>, key: string, grown: seq<H.Bucket>)
    requires AllDistinct(series) && DistinctBounds(grown)
    ensures AllDistinct(series[key := grown])
  {
    var after := series[key := grown];
    forall k | k in after ensures DistinctBounds(after[k]) {
      if k == key { assert after[k] == grown; } else { assert after[k] == series[k]; }
    }
  }

  lemma {:induction false} CellsReplaced(series: map<string, seq<H.Bucket>>, key: string, grown: seq<H.Bucket>)
    ensures CellsOf(series[key := grown]) == CellsOf(series)[key := RowOf(grown)]
  {
    var after := series[key := grown];
    SameCells(CellsOf(after), CellsOf(series)[key := RowOf(grown)]);
  }

  lemma {:induction false} SameCells(a: map<string, Row>, b: map<string, Row>)
    requires a.Keys == b.Keys && forall k :: k in a ==> a[k] == b[k]
    ensures a == b
  {
  }

  lemma {:induction false} EntriesOfTable(series: map<string, seq<H.Bucket>>, keys: seq<string>)
    requires AllDistinct(series) && keys == KeyList(series.Keys)
    ensures forall k :: k in keys ==> k in series
    ensures H.SnapshotOf(Entries(series, keys)) == H.SnapshotOf(Entries(Rows(CellsOf(series)), KeyList(Rows(CellsOf(series)).Keys)))
  {
    var rows := Rows(CellsOf(series));
    assert rows.Keys == series.Keys;
    var one, other := H.SortSeries(Entries(series, keys)), H.SortSeries(Entries(rows, keys));
    forall i | 0 <= i < |keys| ensures one[i] == other[i] {
      RowListSorts(series[keys[i]]);
      SortTwice(series[keys[i]]);
    }
    assert one == other;
  }

  lemma {:induction false} NothingToFinish(schema: Option<Schema>, cells: map<string, Row>)
    requires |cells| == 0
    ensures FinishOf(Open(schema, cells)) == EMPTY
  {
  }

  /** The part of `observe` that enters a sample under its series key. */
  method Place(series: map<string, seq<H.Bucket>>, seriesKey: string, upper: Option<real>, value: real)
    returns (next: Option<map<string, seq<H.Bucket>>>, limited: bool)
    requires AllDistinct(series)
    ensures limited <==> TableFull(CellsOf(series), seriesKey, upper)
    ensures next.Some? ==> AllDistinct(next.value)
    ensures Enter(CellsOf(series), seriesKey, upper, value)
         == if next.None? then None else Some(CellsOf(next.value))
  {
    SameSize(series);
    if seriesKey !in series && |series| >= H.MAX_SERIES { return None, true; }
    var buckets := if seriesKey in series then series[seriesKey] else [];
    assert RowAt(CellsOf(series), seriesKey) == RowOf(buckets);
    RowHasBound(buckets, upper);
    if HasBound(buckets, upper) { return None, false; }
    if |buckets| >= H.MAX_BUCKETS { return None, true; }
    var grown := buckets + [H.Bucket(upper, value)];
    RowGrown(buckets, H.Bucket(upper, value));
    DistinctReplaced(series, seriesKey, grown);
    CellsReplaced(series, seriesKey, grown);
    return Some(series[seriesKey := grown]), false;
  }

  /** A map handed over as its iterator would, smallest key first. */
  method InKeyOrder(series: map<string, seq<H.Bucket>>) returns (entries: H.Series)
    ensures forall k :: k in KeyList(series.Keys) ==> k in series
    ensures entries == Entries(series, KeyList(series.Keys))
  {
    var pending := series.Keys;
    entries := [];
    ghost var listed: seq<string> := [];
    while pending != {}
      invariant pending <= series.Keys && KeyList(series.Keys) == listed + KeyList(pending)
      invariant forall k :: k in listed ==> k in series
      invariant entries == Entries(series, listed)
      decreases |pending|
    {
      LeastKeyExists(pending);
      var k :| k in pending && IsLeast(k, pending);
      KeyListFront(pending, k);
      entries := entries + [(k, series[k])];
      listed := listed + [k];
      pending := pending - {k};
    }
    assert listed == KeyList(series.Keys);
  }

  method FinishSeries(schema: Schema, series: map<string, seq<H.Bucket>>) returns (histogram: H.RuntimeHistogram)
    requires AllDistinct(series)
    ensures histogram == FinishOf(Open(Some(schema), CellsOf(series)))
  {
    var entries := InKeyOrder(series);
    EntriesOfTable(series, KeyList(series.Keys));
    var snapshot := H.FromSeries(entries);
    return snapshot.GetOr(EMPTY);
  }

  class HistogramAccumulator {
    var schema: Option<Schema>
    var series: map<string, seq<H.Bucket>>
    var invalid: bool

    ghost predicate Valid()
      reads this
    {
      invalid || AllDistinct(series)
    }

    ghost function Cells(): (r: map<string, Row>)
      reads this
    {
      CellsOf(series)
    }

    ghost function Contents(): Table
      reads this
    {
      if invalid then Closed else Open(schema, Cells())
    }

    constructor ()
      ensures Valid() && Contents() == Open(None, map[])
    {
      schema, series, invalid := None, map[], false;
    }

    /** Returns `true` only when a resource limit rejected the sample. */
    method Observe(r: Recognized, key: string, value: real, parse: string -> Option<Number>) returns (limited: bool)
      requires Valid()
      modifies this
      ensures Valid() && Contents() == Step(old(Contents()), PointOf(r, key, value, parse))
      ensures limited <==> LimitReached(old(Contents()), r, key, value, parse)
    {
      if invalid { return false; }
      if schema.Some? && schema.value != r.schema { invalid := true; return false; }
      schema := Some(r.schema);
      if value < 0.0 { invalid := true; return false; }
      var parsed := T.ParseHistogramSampleKey(key, parse);
      if parsed.Err? {
        invalid := true;
        return parsed.error.LimitExceeded?;
      }
      var (labelKey, upper) := parsed.value;
      var seriesKey := StoredKey(r, labelKey);
      var next, full := Place(series, seriesKey, upper, value);
      if next.None? { invalid := true; } else { series := next.value; }
      return full;
    }

    method Invalidate()
      modifies this
      ensures Valid() && Contents() == Closed
    {
      invalid := true;
    }

    /** The map is handed over in key order, as a `BTreeMap` iterates. */
    method Finish() returns (histogram: H.RuntimeHistogram)
      requires Valid()
      ensures histogram == FinishOf(Contents())
    {
      if invalid || schema.None? { return EMPTY; }
      if |series| == 0 {
        SameSize(series);
        NothingToFinish(schema, Cells());
        return EMPTY;
      }
      histogram := FinishSeries(schema.value, series);
    }
  }
}
