/** An exact account of the fail-closed accumulation: which samples keep a histogram open, and what
    an open histogram holds. */
module TableAccount {
  import opened Common
  import opened Families
  import opened Collector
  import H = Histogram
  import P = Probe
  import Sorting

  function TableOf(points: seq<Point>): Table {
    if points == [] then Open(None, map[]) else Step(TableOf(points[..|points| - 1]), points[|points| - 1])
  }

  ghost predicate SameCell(p: Point, q: Point) { p.Point? && q.Point? && p.key == q.key && p.bound == q.bound }

  ghost function Keys(points: seq<Point>): set<string> { set p | p in points && p.Point? :: p.key }

  ghost function Bounds(points: seq<Point>, key: string): set<Option<real>> {
    set p | p in points && p.Point? && p.key == key :: p.bound
  }

  ghost predicate OneSchema(points: seq<Point>) {
    points == [] || (points[0].Point? && forall i :: 0 <= i < |points| ==> points[i].Point? && points[i].schema == points[0].schema)
  }

  ghost predicate NoCellTwice(points: seq<Point>) {
    forall i, j :: 0 <= i < j < |points| ==> !SameCell(points[i], points[j])
  }

  ghost predicate WithinLimits(points: seq<Point>) {
    |Keys(points)| <= H.MAX_SERIES && forall key :: |Bounds(points, key)| <= H.MAX_BUCKETS
  }

  /** Every sample is readable, all share one schema, no cell is claimed twice and no limit is met. */
  ghost predicate Admissible(points: seq<Point>) { OneSchema(points) && NoCellTwice(points) && WithinLimits(points) }

  /** The table holds these samples and nothing else. */
  ghost predicate HoldsExactly(cells: map<string, Row>, points: seq<Point>) {
    && cells.Keys == Keys(points)
    && (forall key :: key in cells ==> cells[key].Keys == Bounds(points, key))
    && (forall p :: p in points && p.Point? ==> p.key in cells && p.bound in cells[p.key] && cells[p.key][p.bound] == p.value)
  }

  lemma {:induction false} KeysOfMore(init: seq<Point>, p: Point)
    ensures Keys(init + [p]) == if p.Point? then Keys(init) + {p.key} else Keys(init)
  {
  }

  lemma {:induction false} BoundsOfMore(init: seq<Point>, p: Point, key: string)
    ensures Bounds(init + [p], key) == if p.Point? && p.key == key then Bounds(init, key) + {p.bound} else Bounds(init, key)
  {
  }

  lemma {:induction false} SmallerSet<T>(a: set<T>, b: set<T>)
    requires a <= b
    ensures |a| <= |b|
  {
    assert b == a + (b - a);
    assert |b| == |a| + |b - a|;
  }

  lemma {:induction false} LimitsOfMore(init: seq<Point>, p: Point)
    requires p.Point?
    ensures WithinLimits(init + [p]) <==>
      WithinLimits(init) && |Keys(init) + {p.key}| <= H.MAX_SERIES && |Bounds(init, p.key) + {p.bound}| <= H.MAX_BUCKETS
  {
    KeysOfMore(init, p);
    SmallerSet(Keys(init), Keys(init) + {p.key});
    BoundsOfMore(init, p, p.key);
    SmallerSet(Bounds(init, p.key), Bounds(init, p.key) + {p.bound});
    forall key ensures key != p.key ==> Bounds(init + [p], key) == Bounds(init, key) { BoundsOfMore(init, p, key); }
  }

  lemma {:induction false} CellsOfMore(init: seq<Point>, p: Point)
    requires p.Point? && OneSchema(init)
    ensures NoCellTwice(init + [p]) <==> NoCellTwice(init) && p.bound !in Bounds(init, p.key)
  {
    var points := init + [p];
    if NoCellTwice(points) {
      forall i, j | 0 <= i < j < |init| ensures !SameCell(init[i], init[j]) {
        assert init[i] == points[i] && init[j] == points[j];
      }
      if p.bound in Bounds(init, p.key) {
        var q :| q in init && q.Point? && q.key == p.key && q.bound == p.bound;
        var i :| 0 <= i < |init| && init[i] == q;
        assert SameCell(points[i], points[|init|]);
      }
    }
    if NoCellTwice(init) && p.bound !in Bounds(init, p.key) {
      forall i, j | 0 <= i < j < |points| ensures !SameCell(points[i], points[j]) {
        assert points[i] == init[i];
        if j < |init| { assert points[j] == init[j]; } else { assert init[i] in init; }
      }
    }
  }

  lemma {:induction false} SchemaOfMore(init: seq<Point>, p: Point)
    ensures OneSchema(init + [p]) <==> OneSchema(init) && p.Point? && (init == [] || p.schema == init[0].schema)
  {
    var points := init + [p];
    if OneSchema(points) {
      assert points[|init|] == p;
      forall i | 0 <= i < |init| ensures init[i].Point? && init[i].schema == init[0].schema { assert init[i] == points[i]; }
      if init != [] { assert init[0] == points[0]; }
    }
    if OneSchema(init) && p.Point? && (init == [] || p.schema == init[0].schema) {
      forall i | 0 <= i < |points| ensures points[i].Point? && points[i].schema == points[0].schema {
        if i < |init| { assert points[i] == init[i] && points[0] == init[0]; }
      }
    }
  }

  /** Room in the table is exactly what the limits and the taken cells leave. */
  lemma {:induction false} RoomForMore(cells: map<string, Row>, init: seq<Point>, p: Point)
    requires p.Point? && HoldsExactly(cells, init) && WithinLimits(init)
    ensures Enter(cells, p.key, p.bound, p.value).Some? <==>
      && p.bound !in Bounds(init, p.key)
      && |Keys(init) + {p.key}| <= H.MAX_SERIES && |Bounds(init, p.key) + {p.bound}| <= H.MAX_BUCKETS
  {
    assert |cells| == |cells.Keys|;
    var row := RowAt(cells, p.key);
    assert |row| == |row.Keys|;
    if p.key in cells {
      assert row.Keys == Bounds(init, p.key) && Keys(init) + {p.key} == Keys(init);
    } else {
      assert Bounds(init, p.key) == {} by {
        forall q | q in init && q.Point? ensures q.key != p.key { assert q.key in Keys(init); }
      }
    }
  }

  lemma {:induction false} RowsOfMore(cells: map<string, Row>, init: seq<Point>, p: Point, key: string)
    requires p.Point? && HoldsExactly(cells, init)
    requires var after := cells[p.key := RowAt(cells, p.key)[p.bound := p.value]]; key in after
    ensures cells[p.key := RowAt(cells, p.key)[p.bound := p.value]][key].Keys == Bounds(init + [p], key)
  {
    BoundsOfMore(init, p, key);
    if key == p.key && key !in cells {
      assert Bounds(init, key) == {} by {
        forall q | q in init && q.Point? ensures q.key != key { assert q.key in Keys(init); }
      }
    }
  }

  lemma {:induction false} ExactlyMore(cells: map<string, Row>, init: seq<Point>, p: Point)
    requires p.Point? && HoldsExactly(cells, init) && p.bound !in Bounds(init, p.key)
    ensures HoldsExactly(cells[p.key := RowAt(cells, p.key)[p.bound := p.value]], init + [p])
  {
    var points := init + [p];
    var after := cells[p.key := RowAt(cells, p.key)[p.bound := p.value]];
    KeysOfMore(init, p);
    forall key | key in after ensures after[key].Keys == Bounds(points, key) { RowsOfMore(cells, init, p, key); }
    forall q | q in points && q.Point?
      ensures q.key in after && q.bound in after[q.key] && after[q.key][q.bound] == q.value
    {
      if q in init { assert q.bound in Bounds(init, q.key); }
    }
  }

  ghost predicate SchemaFits(init: seq<Point>, p: Point)
    requires OneSchema(init)
  {
    p.Point? && (init == [] || p.schema == init[0].schema)
  }

  ghost predicate RoomFits(init: seq<Point>, p: Point)
    requires p.Point?
  {
    && p.bound !in Bounds(init, p.key)
    && |Keys(init) + {p.key}| <= H.MAX_SERIES && |Bounds(init, p.key) + {p.bound}| <= H.MAX_BUCKETS
  }

  lemma {:induction false} AdmissibleMore(init: seq<Point>, p: Point)
    ensures Admissible(init + [p]) <==> Admissible(init) && SchemaFits(init, p) && RoomFits(init, p)
  {
    SchemaOfMore(init, p);
    if p.Point? && OneSchema(init) {
      CellsOfMore(init, p);
      LimitsOfMore(init, p);
    }
  }

  ghost predicate Accounts(t: Table, points: seq<Point>) {
    && (t.Open? <==> Admissible(points))
    && (t.Open? ==> t.schema == SchemaOf(points) && HoldsExactly(t.cells, points))
  }

  ghost function SchemaOf(points: seq<Point>): Option<Schema> {
    if points != [] && points[0].Point? then Some(points[0].schema) else None
  }

  lemma {:induction false} SchemaOfLonger(init: seq<Point>, p: Point)
    requires OneSchema(init) && SchemaFits(init, p)
    ensures SchemaOf(init + [p]) == Some(p.schema)
  {
    assert (init + [p])[0] == if init == [] then p else init[0];
  }

  lemma {:induction false} AccountsMore(t: Table, init: seq<Point>, p: Point)
    requires Accounts(t, init)
    ensures Accounts(Step(t, p), init + [p])
  {
    AdmissibleMore(init, p);
    if t.Open? && SchemaFits(init, p) {
      RoomForMore(t.cells, init, p);
      if RoomFits(init, p) {
        ExactlyMore(t.cells, init, p);
        SchemaOfLonger(init, p);
      }
    }
  }

  /** Fail-closed, exactly: the table is open iff the samples are admissible, and then it holds
      each of them and nothing else. */
  lemma {:induction false} TableAccounts(points: seq<Point>)
    ensures Accounts(TableOf(points), points)
  {
    if points == [] {
      assert Keys(points) == {};
      forall key ensures Bounds(points, key) == {} {}
    } else {
      var init, p := points[..|points| - 1], points[|points| - 1];
      assert points == init + [p];
      TableAccounts(init);
      AccountsMore(TableOf(init), init, p);
    }
  }

  // ---- Back to the body ----

  /** The samples a body feeds to the histogram of one kind. */
  function PointsOf(lines: seq<string>, kind: Kind, parse: string -> Option<Number>): seq<Point> {
    if lines == [] then []
    else
      var last := P.PointFor(P.Classify(lines[|lines| - 1], parse), kind, parse);
      PointsOf(lines[..|lines| - 1], kind, parse) + (match last case None => [] case Some(p) => [p])
  }

  function TableFor(t: P.Tables, kind: Kind): Table {
    match kind
    case RequestLatency => t.requestLatency
    case TimeToFirstToken => t.timeToFirstToken
    case TimePerOutputToken => t.timePerOutputToken
    case QueueTime => t.queueTime
  }

  lemma {:induction false} TableOfMore(points: seq<Point>, p: Option<Point>)
    ensures TableOf(points + (match p case None => [] case Some(one) => [one])) == P.Feed(TableOf(points), p)
  {
    match p
    case None => assert points + [] == points;
    case Some(one) => assert (points + [one])[..|points|] == points;
  }

  /** In a complete scan the histogram of each kind is open iff the samples of that kind are
      admissible, and then it holds exactly those samples. */
  lemma {:induction false} ScanAccounts(lines: seq<string>, kind: Kind, start: P.Scan, parse: string -> Option<Number>)
    requires start.tables == P.FRESH_TABLES
    ensures TableFor(Sorting.Fold(P.LineStep(parse), start, lines).tables, kind) == TableOf(PointsOf(lines, kind, parse))
  {
    if lines != [] {
      var n := |lines| - 1;
      ScanAccounts(lines[..n], kind, start, parse);
      P.OneMoreLine(start, lines, n, parse);
      assert lines[..n + 1] == lines;
      TableOfMore(PointsOf(lines[..n], kind, parse), P.PointFor(P.Classify(lines[n], parse), kind, parse));
    }
  }
}
