/** Reading a scraped metrics body: which lines count, what they feed, and when the scan is cut
    short. */
module Probe {
  import opened Common
  import opened Families
  import opened Collector
  import H = Histogram
  import N = Normalize
  import T = SampleText
  import Sorting

  // ---- One line ----

  /** What a line of the body is worth. `Unreadable` is a sample of a known histogram whose value is
      not a finite number. */
  datatype Sample =
    | Skipped
    | Unreadable(kind: Kind)
    | Counted(family: string, runtime: string, recognized: Option<Recognized>, key: string, value: real)

  function Classify(rawLine: string, parse: string -> Option<Number>): Sample {
    var line := Trim(rawLine);
    if line == [] || line[0] == '#' then Skipped
    else match T.SplitSample(line)
      case None => Skipped
      case Some((key, rawValue)) => Judge(key, rawValue, parse)
  }

  function Judge(key: string, rawValue: string, parse: string -> Option<Number>): Sample {
    var family := N.MetricFamily(key);
    if !N.ValidMetricFamily(family) || N.RuntimeForMetric(family) == [] then Skipped
    else
      var recognized := RecognizeHistogram(family);
      match parse(rawValue)
      case Some(Finite(value)) => Counted(family, N.RuntimeForMetric(family), recognized, key, value)
      case _ => match recognized case None => Skipped case Some(r) => Unreadable(r.kind)
  }

  // ---- The whole scan, as a fold that never stops ----

  datatype Tables = Tables(requestLatency: Table, timeToFirstToken: Table, timePerOutputToken: Table, queueTime: Table)

  datatype Scan = Scan(counted: nat, familyBytes: nat, runtimes: set<string>, tables: Tables, gauges: N.Gauges, counters: N.Counters)

  /** What a sample feeds to the histogram of one kind. */
  function PointFor(s: Sample, kind: Kind, parse: string -> Option<Number>): Option<Point> {
    match s
    case Skipped => None
    case Unreadable(k) => if k == kind then Some(Spoiled) else None
    case Counted(_, _, recognized, key, value) =>
      if recognized.Some? && recognized.value.kind == kind then Some(PointOf(recognized.value, key, value, parse)) else None
  }

  function Feed(t: Table, p: Option<Point>): Table { match p case None => t case Some(point) => Step(t, point) }

  function FeedAll(t: Tables, s: Sample, parse: string -> Option<Number>): Tables {
    Tables(Feed(t.requestLatency, PointFor(s, RequestLatency, parse)),
           Feed(t.timeToFirstToken, PointFor(s, TimeToFirstToken, parse)),
           Feed(t.timePerOutputToken, PointFor(s, TimePerOutputToken, parse)),
           Feed(t.queueTime, PointFor(s, QueueTime, parse)))
  }

  function Take(scan: Scan, s: Sample, parse: string -> Option<Number>): Scan {
    var tables := FeedAll(scan.tables, s, parse);
    if s.Counted? then
      Scan(scan.counted + 1, scan.familyBytes + Utf8Len(s.family), scan.runtimes + {s.runtime}, tables,
           N.NormalizedGauges(scan.gauges, N.Lower(s.family), s.value),
           N.NormalizedCounters(scan.counters, N.Lower(s.family), s.value))
    else scan.(tables := tables)
  }

  ghost function LineStep(parse: string -> Option<Number>): (Scan, string) -> Scan {
    (scan: Scan, line: string) => Take(scan, Classify(line, parse), parse)
  }

  const FRESH_TABLES: Tables := Tables(Open(None, map[]), Open(None, map[]), Open(None, map[]), Open(None, map[]))

  function Fresh(runtimes: set<string>, gauges: N.Gauges, counters: N.Counters): Scan {
    Scan(0, 0, runtimes, FRESH_TABLES, gauges, counters)
  }

  ghost function ScanOf(lines: seq<string>, runtimes: set<string>, gauges: N.Gauges, counters: N.Counters, parse: string -> Option<Number>): Scan {
    Sorting.Fold(LineStep(parse), Fresh(runtimes, gauges, counters), lines)
  }

  /** The scan after the first `n` lines. */
  ghost function ScanUpTo(start: Scan, lines: seq<string>, n: nat, parse: string -> Option<Number>): Scan
    requires n <= |lines|
  {
    Sorting.Fold(LineStep(parse), start, lines[..n])
  }

  // ---- Line order does not matter ----

  lemma {:induction false} FeedsCommute(t: Table, p: Option<Point>, q: Option<Point>)
    ensures Feed(Feed(t, p), q) == Feed(Feed(t, q), p)
  {
    if p.Some? && q.Some? { StepsCommute(t, p.value, q.value); }
  }

  lemma {:induction false} TablesCommute(t: Tables, a: Sample, b: Sample, parse: string -> Option<Number>)
    ensures FeedAll(FeedAll(t, a, parse), b, parse) == FeedAll(FeedAll(t, b, parse), a, parse)
  {
    FeedsCommute(t.requestLatency, PointFor(a, RequestLatency, parse), PointFor(b, RequestLatency, parse));
    FeedsCommute(t.timeToFirstToken, PointFor(a, TimeToFirstToken, parse), PointFor(b, TimeToFirstToken, parse));
    FeedsCommute(t.timePerOutputToken, PointFor(a, TimePerOutputToken, parse), PointFor(b, TimePerOutputToken, parse));
    FeedsCommute(t.queueTime, PointFor(a, QueueTime, parse), PointFor(b, QueueTime, parse));
  }

  lemma {:induction false} TakesCommute(scan: Scan, a: Sample, b: Sample, parse: string -> Option<Number>)
    ensures Take(Take(scan, a, parse), b, parse) == Take(Take(scan, b, parse), a, parse)
  {
    TablesCommute(scan.tables, a, b, parse);
    if a.Counted? && b.Counted? {
      N.GaugesCommute(scan.gauges, N.Lower(a.family), a.value, N.Lower(b.family), b.value);
      N.CountersCommute(scan.counters, N.Lower(a.family), a.value, N.Lower(b.family), b.value);
      assert scan.runtimes + {a.runtime} + {b.runtime} == scan.runtimes + {b.runtime} + {a.runtime};
    }
  }

  lemma {:induction false} LinesCommute(parse: string -> Option<Number>)
    ensures Sorting.Commutes(LineStep(parse))
  {
    forall s: Scan, a: string, b: string
      ensures LineStep(parse)(LineStep(parse)(s, a), b) == LineStep(parse)(LineStep(parse)(s, b), a)
    {
      TakesCommute(s, Classify(a, parse), Classify(b, parse), parse);
    }
  }

  // ---- When the scan is cut short ----

  /** The scan stops early iff a counted sample would exceed one of the two budgets. */
  predicate Overruns(scan: Scan, already: nat, maxSamples: nat, maxFamilyBytes: nat) {
    scan.counted > 0 && (already + scan.counted > maxSamples || scan.familyBytes > maxFamilyBytes)
  }

  /** Line `n` is the first with which the scan overruns a budget. */
  ghost predicate IsCut(start: Scan, lines: seq<string>, n: nat, already: nat, maxSamples: nat, maxFamilyBytes: nat, parse: string -> Option<Number>) {
    && n < |lines| && !Overruns(ScanUpTo(start, lines, n, parse), already, maxSamples, maxFamilyBytes)
    && Overruns(ScanUpTo(start, lines, n + 1, parse), already, maxSamples, maxFamilyBytes)
  }

  ghost predicate NoSmaller(a: Scan, b: Scan) { a.counted <= b.counted && a.familyBytes <= b.familyBytes }

  ghost predicate OnlyGrows(step: (Scan, string) -> Scan) { forall scan, line :: NoSmaller(scan, step(scan, line)) }

  lemma {:induction false} LineStepGrows(parse: string -> Option<Number>)
    ensures OnlyGrows(LineStep(parse))
  {
    forall scan: Scan, line: string ensures NoSmaller(scan, LineStep(parse)(scan, line)) {
      TakeGrows(scan, Classify(line, parse), parse);
    }
  }

  lemma {:induction false} TakeGrows(scan: Scan, s: Sample, parse: string -> Option<Number>)
    ensures NoSmaller(scan, Take(scan, s, parse))
  {
  }

  lemma {:induction false} BudgetsOnlyGrow(step: (Scan, string) -> Scan, scan: Scan, lines: seq<string>)
    requires OnlyGrows(step)
    ensures NoSmaller(scan, Sorting.Fold(step, scan, lines))
    decreases lines
  {
    if lines != [] {
      BudgetsOnlyGrow(step, step(scan, lines[0]), lines[1..]);
      assert NoSmaller(scan, step(scan, lines[0]));
    }
  }

  lemma {:induction false} OverrunStays(scan: Scan, lines: seq<string>, n: nat, parse: string -> Option<Number>, already: nat, maxSamples: nat, maxFamilyBytes: nat)
    requires n <= |lines| && Overruns(Sorting.Fold(LineStep(parse), scan, lines[..n]), already, maxSamples, maxFamilyBytes)
    ensures Overruns(Sorting.Fold(LineStep(parse), scan, lines), already, maxSamples, maxFamilyBytes)
  {
    assert lines == lines[..n] + lines[n..];
    Sorting.FoldAppend(LineStep(parse), scan, lines[..n], lines[n..]);
    LineStepGrows(parse);
    BudgetsOnlyGrow(LineStep(parse), Sorting.Fold(LineStep(parse), scan, lines[..n]), lines[n..]);
  }

  lemma {:induction false} OneMoreLine(scan: Scan, lines: seq<string>, n: nat, parse: string -> Option<Number>)
    requires n < |lines|
    ensures Sorting.Fold(LineStep(parse), scan, lines[..n + 1])
         == Take(Sorting.Fold(LineStep(parse), scan, lines[..n]), Classify(lines[n], parse), parse)
  {
    assert lines[..n + 1] == lines[..n] + [lines[n]];
    Sorting.FoldAppend(LineStep(parse), scan, lines[..n], [lines[n]]);
    var before := Sorting.Fold(LineStep(parse), scan, lines[..n]);
    assert Sorting.Fold(LineStep(parse), before, [lines[n]])
        == Sorting.Fold(LineStep(parse), LineStep(parse)(before, lines[n]), []);
  }

  // ---- When the scan meets a limit of a histogram ----

  function TableFor(t: Tables, kind: Kind): Table {
    match kind
    case RequestLatency => t.requestLatency
    case TimeToFirstToken => t.timeToFirstToken
    case TimePerOutputToken => t.timePerOutputToken
    case QueueTime => t.queueTime
  }

  predicate SampleMeetsLimit(t: Tables, s: Sample, parse: string -> Option<Number>) {
    s.Counted? && s.recognized.Some?
    && LimitReached(TableFor(t, s.recognized.value.kind), s.recognized.value, s.key, s.value, parse)
  }

  /** Line `i`, after those before it, is a histogram sample turned away by a limit. */
  ghost predicate MeetsLimit(start: Scan, lines: seq<string>, i: nat, parse: string -> Option<Number>)
    requires i < |lines|
  {
    SampleMeetsLimit(ScanUpTo(start, lines, i, parse).tables, Classify(lines[i], parse), parse)
  }

  ghost predicate SomeLimit(start: Scan, lines: seq<string>, n: nat, parse: string -> Option<Number>)
    requires n <= |lines|
  {
    exists i: nat :: i < n && MeetsLimit(start, lines, i, parse)
  }

  // ---- The collector of the program ----

  datatype Histograms = Histograms(
    requestLatency: H.RuntimeHistogram, timeToFirstToken: H.RuntimeHistogram,
    timePerOutputToken: H.RuntimeHistogram, queueTime: H.RuntimeHistogram)

  const NO_HISTOGRAMS: Histograms := Histograms(EMPTY, EMPTY, EMPTY, EMPTY)

  ghost function FinishAll(t: Tables): Histograms {
    Histograms(FinishOf(t.requestLatency), FinishOf(t.timeToFirstToken), FinishOf(t.timePerOutputToken), FinishOf(t.queueTime))
  }

  class HistogramCollector {
    const requestLatency: HistogramAccumulator
    const timeToFirstToken: HistogramAccumulator
    const timePerOutputToken: HistogramAccumulator
    const queueTime: HistogramAccumulator

    ghost function Parts(): set<HistogramAccumulator> { {requestLatency, timeToFirstToken, timePerOutputToken, queueTime} }

    ghost predicate Valid()
      reads Parts()
    {
      && |Parts()| == 4
      && requestLatency != timeToFirstToken && requestLatency != timePerOutputToken && requestLatency != queueTime
      && timeToFirstToken != timePerOutputToken && timeToFirstToken != queueTime && timePerOutputToken != queueTime
      && requestLatency.Valid() && timeToFirstToken.Valid() && timePerOutputToken.Valid() && queueTime.Valid()
    }

    ghost function Contents(): Tables
      reads Parts()
    {
      Tables(requestLatency.Contents(), timeToFirstToken.Contents(), timePerOutputToken.Contents(), queueTime.Contents())
    }

    constructor ()
      ensures Valid() && Contents() == FRESH_TABLES && fresh(Parts())
    {
      requestLatency := new HistogramAccumulator();
      timeToFirstToken := new HistogramAccumulator();
      timePerOutputToken := new HistogramAccumulator();
      queueTime := new HistogramAccumulator();
    }

    function AccumulatorFor(kind: Kind): (a: HistogramAccumulator)
      ensures a in Parts()
    {
      match kind
      case RequestLatency => requestLatency
      case TimeToFirstToken => timeToFirstToken
      case TimePerOutputToken => timePerOutputToken
      case QueueTime => queueTime
    }

    method Observe(r: Recognized, key: string, value: real, parse: string -> Option<Number>) returns (limited: bool)
      requires Valid()
      modifies Parts()
      ensures Valid()
      ensures Contents() == FeedKind(old(Contents()), r.kind, PointOf(r, key, value, parse))
      ensures limited <==> LimitReached(TableFor(old(Contents()), r.kind), r, key, value, parse)
    {
      var accumulator := AccumulatorFor(r.kind);
      limited := accumulator.Observe(r, key, value, parse);
    }

    method Invalidate(kind: Kind)
      requires Valid()
      modifies Parts()
      ensures Valid()
      ensures Contents() == FeedKind(old(Contents()), kind, Spoiled)
    {
      var accumulator := AccumulatorFor(kind);
      accumulator.Invalidate();
    }

    method Finish() returns (histograms: Histograms)
      requires Valid()
      ensures histograms == FinishAll(Contents())
    {
      var a := requestLatency.Finish();
      var b := timeToFirstToken.Finish();
      var c := timePerOutputToken.Finish();
      var d := queueTime.Finish();
      return Histograms(a, b, c, d);
    }
  }

  /** One histogram takes a point, the other three stay as they are. */
  function FeedKind(t: Tables, kind: Kind, p: Point): Tables {
    match kind
    case RequestLatency => t.(requestLatency := Step(t.requestLatency, p))
    case TimeToFirstToken => t.(timeToFirstToken := Step(t.timeToFirstToken, p))
    case TimePerOutputToken => t.(timePerOutputToken := Step(t.timePerOutputToken, p))
    case QueueTime => t.(queueTime := Step(t.queueTime, p))
  }

  lemma {:induction false} FeedAllIsFeedKind(t: Tables, s: Sample, parse: string -> Option<Number>)
    ensures s.Unreadable? ==> FeedAll(t, s, parse) == FeedKind(t, s.kind, Spoiled)
    ensures s.Counted? && s.recognized.Some? ==>
      FeedAll(t, s, parse) == FeedKind(t, s.recognized.value.kind, PointOf(s.recognized.value, s.key, s.value, parse))
    ensures s.Skipped? || (s.Counted? && s.recognized.None?) ==> FeedAll(t, s, parse) == t
  {
  }

  // ---- The endpoint ----

  ghost function Names(runtime: seq<string>): set<string> { set r | r in runtime }

  class Endpoint {
    /** The names that `kind` joins with `+`. */
    var runtime: seq<string>
    var metricSamples: nat
    var metricsTruncated: bool
    var gauges: N.Gauges
    var counters: N.Counters
    var histograms: Histograms

    ghost predicate Holds(scan: Scan, samplesBefore: nat)
      reads this
    {
      && metricSamples == samplesBefore + scan.counted
      && Names(runtime) == scan.runtimes
      && gauges == scan.gauges && counters == scan.counters
    }

    method AddRuntime(name: string)
      modifies this`runtime
      ensures Names(runtime) == Names(old(runtime)) + {name}
    {
      if name !in runtime { runtime := runtime + [name]; }
    }

    method Normalize(metricFamily: string, value: real)
      modifies this`gauges, this`counters
      ensures gauges == N.NormalizedGauges(old(gauges), N.Lower(metricFamily), value)
      ensures counters == N.NormalizedCounters(old(counters), N.Lower(metricFamily), value)
    {
      var family := N.Lower(metricFamily);
      if N.IsRunning(family) {
        gauges := gauges.(requestsRunning := Some(gauges.requestsRunning.GetOr(0.0) + value));
      } else if N.IsWaiting(family) {
        gauges := gauges.(requestsWaiting := Some(gauges.requestsWaiting.GetOr(0.0) + value));
      } else if N.IsCacheUsage(family) {
        var percent := N.Percent(value);
        if gauges.kvCacheUsagePercent.None? || percent > gauges.kvCacheUsagePercent.value {
          gauges := gauges.(kvCacheUsagePercent := Some(percent));
        }
      }
      NormalizeCounters(family, value);
    }

    method NormalizeCounters(family: string, value: real)
      modifies this`counters
      ensures counters == N.NormalizedCounters(old(counters), family, value)
    {
      var c := NormalizeRequests(counters, family, value);
      counters := NormalizeLatencies(c, family, value);
    }

    /** The first half of the chain of tests. */
    static method NormalizeRequests(counters: N.Counters, family: string, value: real) returns (c: N.Counters)
      ensures c == N.NormalizedRequests(counters, family, value)
    {
      c := counters;
      if N.IsCompleted(family) { c := c.(requestsCompleted := AddCounter(c.requestsCompleted, value)); }
      if N.IsError(family) { c := c.(requestErrors := AddCounter(c.requestErrors, value)); }
      if N.IsPromptTokens(family) { c := c.(promptTokens := AddCounter(c.promptTokens, value)); }
      if N.IsGenerationTokens(family) { c := c.(generationTokens := AddCounter(c.generationTokens, value)); }
      if N.IsPreemption(family) { c := c.(preemptions := AddCounter(c.preemptions, value)); }
    }

    static method NormalizeLatencies(counters: N.Counters, family: string, value: real) returns (c: N.Counters)
      ensures c == N.NormalizedLatencies(counters, family, value)
    {
      c := counters;
      if N.IsLatencySum(family) { c := c.(latencySum := AddCounter(c.latencySum, value)); }
      if N.IsLatencyCount(family) { c := c.(latencyCount := AddCounter(c.latencyCount, value)); }
      if N.IsTtftSum(family) { c := c.(ttftSum := AddCounter(c.ttftSum, value)); }
      if N.IsTtftCount(family) { c := c.(ttftCount := AddCounter(c.ttftCount, value)); }
      if N.IsTpotSum(family) { c := c.(tpotSum := AddCounter(c.tpotSum, value)); }
      if N.IsTpotCount(family) { c := c.(tpotCount := AddCounter(c.tpotCount, value)); }
    }

    static function AddCounter(counter: Option<real>, value: real): Option<real> { Some(counter.GetOr(0.0) + value) }

    /** Enter a counted sample into the readings. */
    method Record(s: Sample, parse: string -> Option<Number>, ghost scan: Scan, ghost samplesBefore: nat)
      requires s.Counted? && Holds(scan, samplesBefore)
      modifies this`metricSamples, this`runtime, this`gauges, this`counters
      ensures Holds(Take(scan, s, parse), samplesBefore)
    {
      metricSamples := metricSamples + 1;
      AddRuntime(s.runtime);
      Normalize(s.family, s.value);
    }

    /** Enter a counted sample. */
    method TakeSample(s: Sample, collector: HistogramCollector, parse: string -> Option<Number>, ghost scan: Scan, ghost samplesBefore: nat)
      requires s.Counted? && collector.Valid() && Holds(scan, samplesBefore) && collector.Contents() == scan.tables
      modifies this, collector.Parts()
      ensures collector.Valid()
      ensures Holds(Take(scan, s, parse), samplesBefore) && collector.Contents() == Take(scan, s, parse).tables
      ensures metricsTruncated == (old(metricsTruncated) || SampleMeetsLimit(scan.tables, s, parse))
    {
      FeedAllIsFeedKind(scan.tables, s, parse);
      Record(s, parse, scan, samplesBefore);
      if s.recognized.Some? {
        var limited := collector.Observe(s.recognized.value, s.key, s.value, parse);
        if limited { metricsTruncated := true; }
      }
    }

    /** One turn of the loop over the lines: the family bytes so far, or `None` when a budget is spent. */
    method TakeLine(line: string, familyBytes: nat, collector: HistogramCollector, parse: string -> Option<Number>,
      ghost scan: Scan, ghost samplesBefore: nat, maxSamples: nat, maxFamilyBytes: nat) returns (next: Option<nat>)
      requires collector.Valid() && Holds(scan, samplesBefore) && collector.Contents() == scan.tables
      requires familyBytes == scan.familyBytes && !Overruns(scan, samplesBefore, maxSamples, maxFamilyBytes)
      modifies this, collector.Parts()
      ensures var after := Take(scan, Classify(line, parse), parse);
        && next.None? == Overruns(after, samplesBefore, maxSamples, maxFamilyBytes)
        && (next.None? ==> metricsTruncated && Holds(scan, samplesBefore))
        && (next.Some? ==> collector.Valid() && Holds(after, samplesBefore) && collector.Contents() == after.tables
                           && next.value == after.familyBytes
                           && metricsTruncated == (old(metricsTruncated) || SampleMeetsLimit(scan.tables, Classify(line, parse), parse)))
    {
      var sample := ReadLine(line, parse);
      FeedAllIsFeedKind(scan.tables, sample, parse);
      if sample.Unreadable? {
        collector.Invalidate(sample.kind);
        return Some(familyBytes);
      }
      if sample.Skipped? { return Some(familyBytes); }
      var nextFamilyBytes := familyBytes + Utf8Len(sample.family);
      if metricSamples >= maxSamples || nextFamilyBytes > maxFamilyBytes {
        metricsTruncated := true;
        return None;
      }
      TakeSample(sample, collector, parse, scan, samplesBefore);
      return Some(nextFamilyBytes);
    }

    /** The loop over the lines: it reads them all, or stops at the first one that overruns a budget. */
    method ScanLines(lines: seq<string>, maxSamples: nat, maxFamilyBytes: nat, collector: HistogramCollector, parse: string -> Option<Number>, ghost start: Scan)
      returns (complete: bool, ghost read: nat)
      requires collector.Valid() && collector.Contents() == start.tables
      requires start.counted == 0 && start.familyBytes == 0 && Holds(start, metricSamples)
      modifies this, collector.Parts()
      ensures read <= |lines| && Holds(ScanUpTo(start, lines, read, parse), old(metricSamples))
      ensures complete ==> read == |lines| && collector.Valid() && collector.Contents() == ScanUpTo(start, lines, read, parse).tables
      ensures complete ==> !Overruns(ScanUpTo(start, lines, read, parse), old(metricSamples), maxSamples, maxFamilyBytes)
      ensures !complete ==> metricsTruncated && IsCut(start, lines, read, old(metricSamples), maxSamples, maxFamilyBytes, parse)
      ensures complete ==> metricsTruncated == (old(metricsTruncated) || SomeLimit(start, lines, read, parse))
    {
      ghost var before := metricSamples;
      var familyBytes := 0;
      read := 0;
      for n := 0 to |lines|
        invariant read == n && collector.Valid() && Holds(ScanUpTo(start, lines, n, parse), before)
        invariant collector.Contents() == ScanUpTo(start, lines, n, parse).tables
        invariant familyBytes == ScanUpTo(start, lines, n, parse).familyBytes
        invariant !Overruns(ScanUpTo(start, lines, n, parse), before, maxSamples, maxFamilyBytes)
        invariant metricsTruncated == (old(metricsTruncated) || SomeLimit(start, lines, n, parse))
      {
        OneMoreLine(start, lines, n, parse);
        var nextFamilyBytes := TakeLine(lines[n], familyBytes, collector, parse, ScanUpTo(start, lines, n, parse), before, maxSamples, maxFamilyBytes);
        if nextFamilyBytes.None? { return false, n; }
        assert SomeLimit(start, lines, n + 1, parse) == (SomeLimit(start, lines, n, parse) || MeetsLimit(start, lines, n, parse));
        familyBytes, read := nextFamilyBytes.value, n + 1;
      }
      complete := true;
    }

    /** The scan of a body, line by line, with a budget of samples and of family bytes. Cut short, it
        leaves no histogram at all, and the readings of the lines before the one that overran. The
        truncation flag is raised iff it is cut short or a histogram sample was turned away by a limit. */
    method ParseMetricsBounded(lines: seq<string>, maxSamples: nat, maxFamilyBytes: nat, parse: string -> Option<Number>)
      modifies this
      ensures var start := Fresh(Names(old(runtime)), old(gauges), old(counters));
        var scan := ScanOf(lines, Names(old(runtime)), old(gauges), old(counters), parse);
        var cut := Overruns(scan, old(metricSamples), maxSamples, maxFamilyBytes);
        && histograms == (if cut then NO_HISTOGRAMS else FinishAll(scan.tables))
        && (!cut ==> Holds(scan, old(metricSamples)))
        && metricsTruncated == (old(metricsTruncated) || cut || SomeLimit(start, lines, |lines|, parse))
        && (cut ==> exists n: nat :: IsCut(start, lines, n, old(metricSamples), maxSamples, maxFamilyBytes, parse)
                                     && Holds(ScanUpTo(start, lines, n, parse), old(metricSamples)))
    {
      ghost var start := Fresh(Names(runtime), gauges, counters);
      var collector := new HistogramCollector();
      ghost var read;
      var complete;
      complete, read := ScanLines(lines, maxSamples, maxFamilyBytes, collector, parse, start);
      if complete {
        assert lines[..|lines|] == lines;
        histograms := collector.Finish();
      } else {
        OverrunStays(start, lines, read + 1, parse, old(metricSamples), maxSamples, maxFamilyBytes);
        histograms := NO_HISTOGRAMS;
      }
    }
  }

  method ReadLine(rawLine: string, parse: string -> Option<Number>) returns (sample: Sample)
    ensures sample == Classify(rawLine, parse)
  {
    var line := Trim(rawLine);
    if line == [] || line[0] == '#' { return Skipped; }
    var split := T.SplitMetricSample(line);
    if split.None? { return Skipped; }
    return Judge(split.value.0, split.value.1, parse);
  }

  // ---- Main results ----

  /** Whatever the order of the lines of a body, the scan is cut short or not, the histograms are the
      same ones, closed or open, and the readings of a complete scan are the same. */
  lemma {:induction false} LineOrderDoesNotMatter(a: seq<string>, b: seq<string>, runtimes: set<string>, gauges: N.Gauges, counters: N.Counters, parse: string -> Option<Number>)
    requires multiset(a) == multiset(b)
    ensures ScanOf(a, runtimes, gauges, counters, parse) == ScanOf(b, runtimes, gauges, counters, parse)
  {
    LinesCommute(parse);
    Sorting.CommutingFold(LineStep(parse), Fresh(runtimes, gauges, counters), a, b);
  }
}
