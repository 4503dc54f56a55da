/** Trends across collection cycles: growth of GPU processes, and rates of runtime counters. Instants
    are nanoseconds. */
module Trend {
  import opened Common
  import H = Histogram
  import N = Normalize
  import P = Probe
  import R = SampleRoundTrip
  import T = SampleText

  // ---- Vocabulary ----

  datatype Process = Process(pid: nat, name: string, memory: int)
  datatype Gpu = Gpu(uuid: string, index: nat, processes: seq<Process>)
  datatype Sample = Sample(memory: int, at: int)
  datatype Finding = Finding(gpu: nat, process: Process, growth: int)

  /** One process as one GPU reports it. */
  datatype Usage = Usage(uuid: string, index: nat, process: Process)

  function Key(uuid: string, pid: nat): string { uuid + "/" + T.Decimal(pid) }

  function KeyOf(u: Usage): string { Key(u.uuid, u.process.pid) }

  function UsagesOf(g: Gpu): (r: seq<Usage>)
    ensures |r| == |g.processes|
  {
    seq(|g.processes|, i requires 0 <= i < |g.processes| => Usage(g.uuid, g.index, g.processes[i]))
  }

  function Usages(gpus: seq<Gpu>): seq<Usage> {
    if gpus == [] then [] else Usages(gpus[..|gpus| - 1]) + UsagesOf(gpus[|gpus| - 1])
  }

  ghost function KeysOf(usages: seq<Usage>): set<string> { set u | u in usages :: KeyOf(u) }

  /** Whole milliseconds, truncated toward zero. */
  function Millis(ns: int): int { if ns >= 0 then ns / 1_000_000 else -(-ns / 1_000_000) }

  /** What a usage tells against the stored samples. */
  function Growth(table: map<string, Sample>, u: Usage, now: int, threshold: int): seq<Finding> {
    var key := KeyOf(u);
    if key in table && Millis(now - table[key].at) >= 1_000 && u.process.memory - table[key].memory >= threshold
    then [Finding(u.index, u.process, u.process.memory - table[key].memory)] else []
  }

  function Stored(start: map<string, Sample>, usages: seq<Usage>, now: int): map<string, Sample> {
    if usages == [] then start
    else
      var last := usages[|usages| - 1];
      Stored(start, usages[..|usages| - 1], now)[KeyOf(last) := Sample(last.process.memory, now)]
  }

  function Found(start: map<string, Sample>, usages: seq<Usage>, now: int, threshold: int): seq<Finding> {
    if usages == [] then []
    else
      var init := usages[..|usages| - 1];
      Found(start, init, now, threshold) + Growth(Stored(start, init, now), usages[|usages| - 1], now, threshold)
  }

  function Restricted<V>(table: map<string, V>, seen: set<string>): (r: map<string, V>)
    ensures r.Keys == table.Keys * seen && forall k :: k in r ==> r[k] == table[k]
  {
    map k | k in table && k in seen :: table[k]
  }

  // ---- What the tracker keeps ----

  lemma {:induction false} KeysOfMore(usages: seq<Usage>, u: Usage)
    ensures KeysOf(usages + [u]) == KeysOf(usages) + {KeyOf(u)}
  {
  }

  lemma {:induction false} StoredOfMore(start: map<string, Sample>, usages: seq<Usage>, u: Usage, now: int)
    ensures Stored(start, usages + [u], now) == Stored(start, usages, now)[KeyOf(u) := Sample(u.process.memory, now)]
  {
    assert (usages + [u])[..|usages|] == usages;
  }

  lemma {:induction false} FoundOfMore(start: map<string, Sample>, usages: seq<Usage>, u: Usage, now: int, threshold: int)
    ensures Found(start, usages + [u], now, threshold)
         == Found(start, usages, now, threshold) + Growth(Stored(start, usages, now), u, now, threshold)
  {
    assert (usages + [u])[..|usages|] == usages;
  }

  /** A key that was seen is stored with the current instant, any other as it was. */
  lemma {:induction false} StoredEntries(start: map<string, Sample>, usages: seq<Usage>, now: int)
    ensures Stored(start, usages, now).Keys == start.Keys + KeysOf(usages)
    ensures forall k :: k in KeysOf(usages) ==> Stored(start, usages, now)[k].at == now
    ensures forall k :: k in start && k !in KeysOf(usages) ==> Stored(start, usages, now)[k] == start[k]
  {
    if usages == [] {
      assert KeysOf(usages) == {};
    } else {
      var init, u := usages[..|usages| - 1], usages[|usages| - 1];
      assert usages == init + [u];
      StoredEntries(start, init, now);
      KeysOfMore(init, u);
    }
  }

  /** After a cycle the tracker holds exactly the keys of the processes of that cycle, each with the
      current instant; whatever it held before for others is gone. */
  lemma {:induction false} KeptKeysAreCurrent(start: map<string, Sample>, gpus: seq<Gpu>, now: int)
    ensures var kept := Restricted(Stored(start, Usages(gpus), now), KeysOf(Usages(gpus)));
      kept.Keys == KeysOf(Usages(gpus)) && forall k :: k in kept ==> kept[k].at == now
  {
    StoredEntries(start, Usages(gpus), now);
  }

  lemma {:induction false} SlashPosition(a: string, b: string, d: string, e: string)
    requires |a| < |b| && forall i :: 0 <= i < |d| ==> R.IsDigit(d[i])
    ensures a + "/" + d != b + "/" + e
  {
    var s, t := a + "/" + d, b + "/" + e;
    assert t[|b|] == '/';
    if |s| == |t| { assert s[|b|] == d[|b| - |a| - 1]; }
  }

  /** Distinct (uuid, pid) pairs have distinct keys, whatever characters a uuid holds. */
  lemma {:induction false} KeyInjective(uuid: string, pid: nat, other: string, otherPid: nat)
    requires Key(uuid, pid) == Key(other, otherPid)
    ensures uuid == other && pid == otherPid
  {
    R.DecimalDigits(pid);
    R.DecimalDigits(otherPid);
    if |uuid| < |other| {
      SlashPosition(uuid, other, T.Decimal(pid), T.Decimal(otherPid));
    } else if |other| < |uuid| {
      SlashPosition(other, uuid, T.Decimal(otherPid), T.Decimal(pid));
    } else {
      var s := Key(uuid, pid);
      assert uuid == s[..|uuid|] == other;
      assert T.Decimal(pid) == s[|uuid| + 1..] == T.Decimal(otherPid);
      R.DecimalInjective(pid, otherPid);
    }
  }

  /** So a pair is tracked iff some current usage is of that pair. */
  lemma {:induction false} TrackedIffCurrent(start: map<string, Sample>, gpus: seq<Gpu>, now: int, uuid: string, pid: nat)
    ensures Key(uuid, pid) in Restricted(Stored(start, Usages(gpus), now), KeysOf(Usages(gpus)))
       <==> exists u :: u in Usages(gpus) && u.uuid == uuid && u.process.pid == pid
  {
    KeptKeysAreCurrent(start, gpus, now);
    if Key(uuid, pid) in KeysOf(Usages(gpus)) {
      var u :| u in Usages(gpus) && KeyOf(u) == Key(uuid, pid);
      KeyInjective(u.uuid, u.process.pid, uuid, pid);
    }
    if exists u :: u in Usages(gpus) && u.uuid == uuid && u.process.pid == pid {
      var u :| u in Usages(gpus) && u.uuid == uuid && u.process.pid == pid;
      assert KeyOf(u) in KeysOf(Usages(gpus));
    }
  }

  /** What a usage tells is judged against the previous cycle; a pair repeated within one cycle never
      gives a second finding. */
  lemma {:induction false} GrowthSincePreviousCycle(start: map<string, Sample>, earlier: seq<Usage>, u: Usage, now: int, threshold: int)
    ensures Growth(Stored(start, earlier, now), u, now, threshold)
         == if KeyOf(u) in KeysOf(earlier) then [] else Growth(start, u, now, threshold)
  {
    StoredEntries(start, earlier, now);
  }

  // ---- Counters and rates ----

  datatype Counters = Counters(values: N.Counters, histograms: P.Histograms)

  predicate IsEmpty(c: Counters) {
    && c.values == N.Counters(None, None, None, None, None, None, None, None, None, None, None)
    && c.histograms.requestLatency.buckets == [] && c.histograms.timeToFirstToken.buckets == []
    && c.histograms.timePerOutputToken.buckets == [] && c.histograms.queueTime.buckets == []
  }

  datatype Rates = Rates(
    interval: real, requests: Option<real>, errors: Option<real>, promptTokens: Option<real>,
    generationTokens: Option<real>, preemptions: Option<real>,
    meanLatencyMs: Option<real>, meanTtftMs: Option<real>, meanTpotMs: Option<real>,
    requestLatency: Option<H.Interval>, timeToFirstToken: Option<H.Interval>,
    timePerOutputToken: Option<H.Interval>, queueTime: Option<H.Interval>)

  function MonotonicDelta(before: Option<real>, after: Option<real>): Option<real> {
    if before.Some? && after.Some? && after.value >= before.value then Some(after.value - before.value) else None
  }

  function Rate(before: Option<real>, after: Option<real>, elapsed: real): Option<real>
    requires elapsed > 0.0
  {
    match MonotonicDelta(before, after) case None => None case Some(delta) => Some(delta / elapsed)
  }

  function MeanMs(beforeSum: Option<real>, beforeCount: Option<real>, afterSum: Option<real>, afterCount: Option<real>): Option<real> {
    var sum, count := MonotonicDelta(beforeSum, afterSum), MonotonicDelta(beforeCount, afterCount);
    if sum.None? || count.None? || count.value <= 0.0 then None else Some(sum.value / count.value * 1000.0)
  }

  ghost function RatesOf(before: Counters, after: Counters, elapsed: real): Rates
    requires elapsed > 0.0
  {
    var b, a, x, y := before.values, after.values, before.histograms, after.histograms;
    Rates(elapsed,
      Rate(b.requestsCompleted, a.requestsCompleted, elapsed), Rate(b.requestErrors, a.requestErrors, elapsed),
      Rate(b.promptTokens, a.promptTokens, elapsed), Rate(b.generationTokens, a.generationTokens, elapsed),
      Rate(b.preemptions, a.preemptions, elapsed),
      MeanMs(b.latencySum, b.latencyCount, a.latencySum, a.latencyCount),
      MeanMs(b.ttftSum, b.ttftCount, a.ttftSum, a.ttftCount), MeanMs(b.tpotSum, b.tpotCount, a.tpotSum, a.tpotCount),
      H.IntervalOf(x.requestLatency, y.requestLatency), H.IntervalOf(x.timeToFirstToken, y.timeToFirstToken),
      H.IntervalOf(x.timePerOutputToken, y.timePerOutputToken), H.IntervalOf(x.queueTime, y.queueTime))
  }

  method DeriveRates(before: Counters, after: Counters, elapsed: real) returns (rates: Rates)
    requires elapsed > 0.0
    ensures rates == RatesOf(before, after, elapsed)
  {
    var b, a, x, y := before.values, after.values, before.histograms, after.histograms;
    var requestLatency := H.IntervalBetween(x.requestLatency, y.requestLatency);
    var timeToFirstToken := H.IntervalBetween(x.timeToFirstToken, y.timeToFirstToken);
    var timePerOutputToken := H.IntervalBetween(x.timePerOutputToken, y.timePerOutputToken);
    var queueTime := H.IntervalBetween(x.queueTime, y.queueTime);
    return Rates(elapsed,
      Rate(b.requestsCompleted, a.requestsCompleted, elapsed), Rate(b.requestErrors, a.requestErrors, elapsed),
      Rate(b.promptTokens, a.promptTokens, elapsed), Rate(b.generationTokens, a.generationTokens, elapsed),
      Rate(b.preemptions, a.preemptions, elapsed),
      MeanMs(b.latencySum, b.latencyCount, a.latencySum, a.latencyCount),
      MeanMs(b.ttftSum, b.ttftCount, a.ttftSum, a.ttftCount), MeanMs(b.tpotSum, b.tpotCount, a.tpotSum, a.tpotCount),
      requestLatency, timeToFirstToken, timePerOutputToken, queueTime);
  }

  datatype EndpointSample = EndpointSample(counters: Counters, at: int)

  datatype Endpoint = Endpoint(url: string, metricsUrl: string, reachable: bool, counters: Counters, rates: Option<Rates>)

  function EndpointKey(e: Endpoint): string { if e.metricsUrl == [] then e.url else e.metricsUrl }

  function Seconds(ns: int): real { if ns > 0 then ns as real / 1_000_000_000.0 else 0.0 }

  predicate HasReading(e: Endpoint) { e.reachable && !IsEmpty(e.counters) }

  /** The sample kept for an endpoint: the last reading there was. */
  function NextSample(previous: Option<EndpointSample>, e: Endpoint, now: int): Option<EndpointSample> {
    if HasReading(e) then Some(EndpointSample(e.counters, now)) else previous
  }

  /** The rates an endpoint is given; an endpoint without reading or without earlier sample keeps
      what it came with. */
  ghost function NextRates(previous: Option<EndpointSample>, e: Endpoint, now: int): Option<Rates> {
    if HasReading(e) && previous.Some? && Seconds(now - previous.value.at) > 0.0
    then Some(RatesOf(previous.value.counters, e.counters, Seconds(now - previous.value.at)))
    else e.rates
  }

  function Lookup<V>(table: map<string, V>, key: string): Option<V> { if key in table then Some(table[key]) else None }

  ghost predicate DistinctKeys(endpoints: seq<Endpoint>) {
    forall i, j :: 0 <= i < j < |endpoints| ==> EndpointKey(endpoints[i]) != EndpointKey(endpoints[j])
  }

  /** The key of an endpoint, and the sample it leaves when it was read. */
  function EntryOf(e: Endpoint, now: int): (string, Option<EndpointSample>) {
    (EndpointKey(e), if HasReading(e) then Some(EndpointSample(e.counters, now)) else None)
  }

  function EntriesOf(endpoints: seq<Endpoint>, now: int): (r: seq<(string, Option<EndpointSample>)>)
    ensures |r| == |endpoints| && forall i :: 0 <= i < |r| ==> r[i] == EntryOf(endpoints[i], now)
  {
    seq(|endpoints|, i requires 0 <= i < |endpoints| => EntryOf(endpoints[i], now))
  }

  /** A table after the first `n` entries were put into it. */
  function Sampled<V>(start: map<string, V>, entries: seq<(string, Option<V>)>, n: nat): map<string, V>
    requires n <= |entries|
    decreases n
  {
    if n == 0 then start
    else
      var before := Sampled(start, entries, n - 1);
      match entries[n - 1].1
      case None => before
      case Some(v) => before[entries[n - 1].0 := v]
  }

  ghost function EntryKeys<V>(entries: seq<(string, Option<V>)>, n: nat): set<string>
    requires n <= |entries|
  {
    if n == 0 then {} else EntryKeys(entries, n - 1) + {entries[n - 1].0}
  }

  lemma {:induction false} EntryKeysHold<V>(entries: seq<(string, Option<V>)>, n: nat, i: nat)
    requires i < n <= |entries|
    ensures entries[i].0 in EntryKeys(entries, n)
  {
    if i < n - 1 { EntryKeysHold(entries, n - 1, i); }
  }

  /** What happens to the endpoint at a position. */
  ghost function RatedAt(start: map<string, EndpointSample>, endpoints: seq<Endpoint>, i: nat, now: int): Endpoint
    requires i < |endpoints|
  {
    var e := endpoints[i];
    e.(rates := NextRates(Lookup(Sampled(start, EntriesOf(endpoints, now), i), EndpointKey(e)), e, now))
  }

  /** The first `n` endpoints of a cycle with their rates. */
  ghost function Rated(start: map<string, EndpointSample>, given: seq<Endpoint>, n: nat, now: int): (r: seq<Endpoint>)
    requires n <= |given|
    ensures |r| == n
  {
    if n == 0 then [] else Rated(start, given, n - 1, now) + [RatedAt(start, given, n - 1, now)]
  }

  lemma {:induction false} RatedByPosition(start: map<string, EndpointSample>, given: seq<Endpoint>, n: nat, i: nat, now: int)
    requires i < n <= |given|
    ensures Rated(start, given, n, now)[i] == RatedAt(start, given, i, now)
  {
    if i < n - 1 { RatedByPosition(start, given, n - 1, i, now); }
  }

  lemma {:induction false} SampledStep(start: map<string, EndpointSample>, given: seq<Endpoint>, i: nat, now: int, after: Endpoint)
    requires i < |given|
    requires var table := Sampled(start, EntriesOf(given, now), i);
      after == given[i].(rates := NextRates(Lookup(table, EndpointKey(given[i])), given[i], now))
    ensures after == RatedAt(start, given, i, now)
    ensures Sampled(start, EntriesOf(given, now), i + 1)
         == match EntryOf(given[i], now).1 {
              case None => Sampled(start, EntriesOf(given, now), i)
              case Some(sample) => Sampled(start, EntriesOf(given, now), i)[EndpointKey(given[i]) := sample]
            }
  {
  }

  lemma {:induction false} NextIsRated(start: map<string, EndpointSample>, given: seq<Endpoint>, i: nat, now: int, after: Endpoint)
    requires i < |given| && after == RatedAt(start, given, i, now)
    ensures (Rated(start, given, i, now) + given[i..])[i := after] == Rated(start, given, i + 1, now) + given[i + 1..]
  {
  }

  lemma {:induction false} SampledElsewhere<V>(start: map<string, V>, entries: seq<(string, Option<V>)>, n: nat, key: string)
    requires n <= |entries| && forall i :: 0 <= i < n ==> entries[i].0 != key
    ensures Lookup(Sampled(start, entries, n), key) == Lookup(start, key)
  {
    if n > 0 { SampledElsewhere(start, entries, n - 1, key); }
  }

  ghost predicate DistinctEntries<V>(entries: seq<(string, Option<V>)>) {
    forall i, j :: 0 <= i < j < |entries| ==> entries[i].0 != entries[j].0
  }

  /** With distinct keys each entry is there in the end, or what was there before it. */
  lemma {:induction false} SampledHere<V>(start: map<string, V>, entries: seq<(string, Option<V>)>, n: nat, i: nat)
    requires i < n <= |entries| && DistinctEntries(entries)
    ensures Lookup(Sampled(start, entries, n), entries[i].0) == if entries[i].1.Some? then entries[i].1 else Lookup(start, entries[i].0)
  {
    if i == n - 1 {
      SampledElsewhere(start, entries, i, entries[i].0);
    } else {
      SampledHere(start, entries, n - 1, i);
      assert entries[i].0 != entries[n - 1].0;
    }
  }

  /** One cycle seen from one endpoint: its rates come from the sample of the last cycle it was read
      in, and its sample is replaced only when it is read now. */
  lemma {:induction false} CycleByEndpoint(start: map<string, EndpointSample>, endpoints: seq<Endpoint>, i: nat, now: int)
    requires DistinctKeys(endpoints) && i < |endpoints|
    ensures var key, entries := EndpointKey(endpoints[i]), EntriesOf(endpoints, now);
      && Lookup(Restricted(Sampled(start, entries, |entries|), EntryKeys(entries, |entries|)), key)
         == NextSample(Lookup(start, key), endpoints[i], now)
      && RatedAt(start, endpoints, i, now).rates == NextRates(Lookup(start, key), endpoints[i], now)
  {
    var key, entries := EndpointKey(endpoints[i]), EntriesOf(endpoints, now);
    assert entries[i] == EntryOf(endpoints[i], now);
    SampledHere(start, entries, |entries|, i);
    SampledElsewhere(start, entries, i, key);
    EntryKeysHold(entries, |entries|, i);
  }

  // ---- Rates add up ----

  /** What one cycle has of an endpoint that is listed in every cycle. */
  datatype Cycle = Cycle(at: int, endpoint: Endpoint)

  /** No reading when the endpoint could not be reached or reported nothing. */
  function ReadingOf(c: Cycle): Option<Counters> { if HasReading(c.endpoint) then Some(c.endpoint.counters) else None }

  /** The sample held for the endpoint after some cycles. */
  function Held(cycles: seq<Cycle>): Option<EndpointSample> {
    if cycles == [] then None
    else NextSample(Held(cycles[..|cycles| - 1]), cycles[|cycles| - 1].endpoint, cycles[|cycles| - 1].at)
  }

  /** A counter, and the rate reported for it. */
  datatype Meter = Requests | Errors | PromptTokens | GenerationTokens | Preemptions

  function Reading(c: Counters, m: Meter): Option<real> {
    match m
    case Requests => c.values.requestsCompleted
    case Errors => c.values.requestErrors
    case PromptTokens => c.values.promptTokens
    case GenerationTokens => c.values.generationTokens
    case Preemptions => c.values.preemptions
  }

  function Reported(r: Rates, m: Meter): Option<real> {
    match m
    case Requests => r.requests
    case Errors => r.errors
    case PromptTokens => r.promptTokens
    case GenerationTokens => r.generationTokens
    case Preemptions => r.preemptions
  }

  function Gain(rates: Option<Rates>, m: Meter): real {
    match rates case None => 0.0 case Some(r) => Reported(r, m).GetOr(0.0) * r.interval
  }

  /** Rate times interval as reported in a cycle; nothing when no rate was reported. */
  ghost function Progress(previous: Option<EndpointSample>, c: Cycle, m: Meter): real {
    Gain(NextRates(previous, c.endpoint, c.at), m)
  }

  ghost function TotalProgress(cycles: seq<Cycle>, m: Meter): real {
    if cycles == [] then 0.0
    else
      var init := cycles[..|cycles| - 1];
      TotalProgress(init, m) + Progress(Held(init), cycles[|cycles| - 1], m)
  }

  /** Time moves on, endpoints come without rates, every reading has the counter, and it never falls
      from one reading to the next. */
  ghost predicate Steady(cycles: seq<Cycle>, m: Meter) {
    && (forall i, j :: 0 <= i < j < |cycles| ==> cycles[i].at < cycles[j].at)
    && (forall i :: 0 <= i < |cycles| ==> cycles[i].endpoint.rates.None?)
    && (forall i :: 0 <= i < |cycles| && ReadingOf(cycles[i]).Some? ==> Reading(cycles[i].endpoint.counters, m).Some?)
    && (forall i, j :: 0 <= i < j < |cycles| && ReadingOf(cycles[i]).Some? && ReadingOf(cycles[j]).Some? ==>
          Reading(cycles[i].endpoint.counters, m).value <= Reading(cycles[j].endpoint.counters, m).value)
  }

  function FirstReading(cycles: seq<Cycle>, m: Meter): Option<real> {
    if cycles == [] then None
    else
      var earlier := FirstReading(cycles[..|cycles| - 1], m);
      if earlier.Some? then earlier
      else match ReadingOf(cycles[|cycles| - 1]) case None => None case Some(c) => Reading(c, m)
  }

  lemma {:induction false} OneStep(before: real, after: real, elapsed: real)
    requires elapsed > 0.0 && before <= after
    ensures Rate(Some(before), Some(after), elapsed).Some?
    ensures Rate(Some(before), Some(after), elapsed).value * elapsed == after - before
  {
  }

  /** Of all the rates only the metered one matters. */
  lemma {:induction false} ReportedRate(before: Counters, after: Counters, m: Meter, elapsed: real)
    requires elapsed > 0.0
    ensures Reported(RatesOf(before, after, elapsed), m) == Rate(Reading(before, m), Reading(after, m), elapsed)
    ensures RatesOf(before, after, elapsed).interval == elapsed
  {
  }

  lemma {:induction false} GainIs(rates: Rates, m: Meter, rate: real, interval: real)
    requires Reported(rates, m) == Some(rate) && rates.interval == interval
    ensures Gain(Some(rates), m) == rate * interval
  {
  }

  lemma {:induction false} ProgressIsDelta(previous: EndpointSample, c: Cycle, m: Meter)
    requires ReadingOf(c).Some? && previous.at < c.at
    requires Reading(previous.counters, m).Some? && Reading(c.endpoint.counters, m).Some?
    requires Reading(previous.counters, m).value <= Reading(c.endpoint.counters, m).value
    ensures Progress(Some(previous), c, m) == Reading(c.endpoint.counters, m).value - Reading(previous.counters, m).value
  {
    var elapsed := Seconds(c.at - previous.at);
    var before, after := Reading(previous.counters, m).value, Reading(c.endpoint.counters, m).value;
    OneStep(before, after, elapsed);
    ReportedRate(previous.counters, c.endpoint.counters, m, elapsed);
    GainIs(RatesOf(previous.counters, c.endpoint.counters, elapsed), m, Rate(Some(before), Some(after), elapsed).value, elapsed);
  }

  ghost predicate IsLastReading(cycles: seq<Cycle>, i: int) {
    0 <= i < |cycles| && ReadingOf(cycles[i]).Some? && forall j :: i < j < |cycles| ==> ReadingOf(cycles[j]).None?
  }

  /** The held sample is that of the last cycle with a reading; there is none iff there was no reading. */
  lemma {:induction false} HeldIsLastReading(cycles: seq<Cycle>)
    ensures Held(cycles).Some? ==>
      exists i :: IsLastReading(cycles, i) && Held(cycles) == Some(EndpointSample(cycles[i].endpoint.counters, cycles[i].at))
    ensures Held(cycles).None? <==> forall i :: 0 <= i < |cycles| ==> ReadingOf(cycles[i]).None?
  {
    if cycles != [] {
      var last := |cycles| - 1;
      var init := cycles[..last];
      HeldIsLastReading(init);
      if ReadingOf(cycles[last]).Some? {
        assert IsLastReading(cycles, last);
      } else if Held(init).Some? {
        var i :| IsLastReading(init, i) && Held(init) == Some(EndpointSample(init[i].endpoint.counters, init[i].at));
        assert IsLastReading(cycles, i);
      }
    }
  }

  lemma {:induction false} FirstReadingExists(cycles: seq<Cycle>, m: Meter)
    requires Steady(cycles, m)
    ensures Held(cycles).Some? <==> FirstReading(cycles, m).Some?
    ensures Held(cycles).Some? ==> Reading(Held(cycles).value.counters, m).Some?
  {
    if cycles != [] {
      assert Steady(cycles[..|cycles| - 1], m);
      FirstReadingExists(cycles[..|cycles| - 1], m);
    }
  }

  /** Whatever cycles the endpoint was unreachable in, its rates times their intervals add up to exactly
      what the counter gained between the first and the last reading. */
  lemma {:induction false} RatesAddUp(cycles: seq<Cycle>, m: Meter)
    requires Steady(cycles, m)
    ensures Held(cycles).Some? <==> FirstReading(cycles, m).Some?
    ensures Held(cycles).Some? ==> Reading(Held(cycles).value.counters, m).Some?
    ensures TotalProgress(cycles, m)
         == if Held(cycles).None? then 0.0 else Reading(Held(cycles).value.counters, m).value - FirstReading(cycles, m).value
  {
    FirstReadingExists(cycles, m);
    if cycles != [] {
      var init, c := cycles[..|cycles| - 1], cycles[|cycles| - 1];
      assert Steady(init, m);
      RatesAddUp(init, m);
      HeldIsLastReading(init);
      if ReadingOf(c).Some? && Held(init).Some? {
        var i :| IsLastReading(init, i) && Held(init) == Some(EndpointSample(init[i].endpoint.counters, init[i].at));
        assert init[i] == cycles[i];
        ProgressIsDelta(Held(init).value, c, m);
      }
    }
  }

  // ---- Runs of the tracker ----

  /** What one call is given: the endpoints of a cycle and its instant. */
  datatype Collection = Collection(endpoints: seq<Endpoint>, at: int)

  /** The table after one cycle. */
  ghost function TableNext(table: map<string, EndpointSample>, endpoints: seq<Endpoint>, now: int): map<string, EndpointSample> {
    var entries := EntriesOf(endpoints, now);
    Restricted(Sampled(table, entries, |entries|), EntryKeys(entries, |entries|))
  }

  /** The table of a tracker that started empty, after a run of cycles. */
  ghost function TableAfter(run: seq<Collection>): map<string, EndpointSample> {
    if run == [] then map[]
    else TableNext(TableAfter(run[..|run| - 1]), run[|run| - 1].endpoints, run[|run| - 1].at)
  }

  function PositionOf(endpoints: seq<Endpoint>, key: string): (r: Option<nat>)
    ensures r.Some? ==> r.value < |endpoints| && EndpointKey(endpoints[r.value]) == key
    ensures r.None? ==> forall i :: 0 <= i < |endpoints| ==> EndpointKey(endpoints[i]) != key
  {
    if endpoints == [] then None
    else if EndpointKey(endpoints[0]) == key then Some(0)
    else match PositionOf(endpoints[1..], key) case None => None case Some(i) => Some(i + 1)
  }

  /** Every cycle lists distinct keys, and this one among them. */
  ghost predicate ListedThroughout(run: seq<Collection>, key: string) {
    forall i :: 0 <= i < |run| ==> DistinctKeys(run[i].endpoints) && PositionOf(run[i].endpoints, key).Some?
  }

  /** The run as seen from one endpoint. */
  ghost function CyclesOf(run: seq<Collection>, key: string): (r: seq<Cycle>)
    requires ListedThroughout(run, key)
    ensures |r| == |run|
  {
    if run == [] then []
    else
      var last := run[|run| - 1];
      CyclesOf(run[..|run| - 1], key) + [Cycle(last.at, last.endpoints[PositionOf(last.endpoints, key).value])]
  }

  /** The rates that the last cycle of a run wrote into the endpoint. */
  ghost function RatesReported(run: seq<Collection>, key: string): Option<Rates>
    requires run != [] && ListedThroughout(run, key)
  {
    var last := run[|run| - 1];
    RatedAt(TableAfter(run[..|run| - 1]), last.endpoints, PositionOf(last.endpoints, key).value, last.at).rates
  }

  /** Rates times intervals, added up over the cycles of a run. */
  ghost function ProgressReported(run: seq<Collection>, key: string, m: Meter): real
    requires ListedThroughout(run, key)
  {
    if run == [] then 0.0
    else ProgressReported(run[..|run| - 1], key, m) + Gain(RatesReported(run, key), m)
  }

  /** For an endpoint listed in every cycle the table of the tracker holds what its own cycles say. */
  lemma {:induction false} TableHolds(run: seq<Collection>, key: string)
    requires ListedThroughout(run, key)
    ensures Lookup(TableAfter(run), key) == Held(CyclesOf(run, key))
  {
    if run != [] {
      var init, last := run[..|run| - 1], run[|run| - 1];
      TableHolds(init, key);
      CycleByEndpoint(TableAfter(init), last.endpoints, PositionOf(last.endpoints, key).value, last.at);
      assert CyclesOf(run, key)[..|init|] == CyclesOf(init, key);
    }
  }

  lemma {:induction false} ReportedAre(run: seq<Collection>, key: string)
    requires run != [] && ListedThroughout(run, key)
    ensures var last := run[|run| - 1];
      RatesReported(run, key)
      == NextRates(Held(CyclesOf(run[..|run| - 1], key)), last.endpoints[PositionOf(last.endpoints, key).value], last.at)
  {
    var init, last := run[..|run| - 1], run[|run| - 1];
    TableHolds(init, key);
    CycleByEndpoint(TableAfter(init), last.endpoints, PositionOf(last.endpoints, key).value, last.at);
  }

  lemma {:induction false} TotalOfMore(cycles: seq<Cycle>, c: Cycle, m: Meter)
    ensures TotalProgress(cycles + [c], m) == TotalProgress(cycles, m) + Progress(Held(cycles), c, m)
  {
    assert (cycles + [c])[..|cycles|] == cycles;
  }

  lemma {:induction false} ReportedIsGain(run: seq<Collection>, key: string, m: Meter, earlier: seq<Cycle>, c: Cycle)
    requires run != [] && ListedThroughout(run, key)
    requires earlier == CyclesOf(run[..|run| - 1], key)
    requires c == Cycle(run[|run| - 1].at, run[|run| - 1].endpoints[PositionOf(run[|run| - 1].endpoints, key).value])
    ensures Gain(RatesReported(run, key), m) == Progress(Held(earlier), c, m)
  {
    ReportedAre(run, key);
  }

  lemma {:induction false} ReportedIsProgress(run: seq<Collection>, key: string, m: Meter)
    requires ListedThroughout(run, key)
    ensures ProgressReported(run, key, m) == TotalProgress(CyclesOf(run, key), m)
  {
    if run != [] {
      var init, last := run[..|run| - 1], run[|run| - 1];
      var earlier, c := CyclesOf(init, key), Cycle(last.at, last.endpoints[PositionOf(last.endpoints, key).value]);
      ReportedIsProgress(init, key, m);
      ReportedIsGain(run, key, m, earlier, c);
      TotalOfMore(earlier, c, m);
    }
  }

  /** Over any run of the tracker with advancing instants and distinct keys in each cycle: for an
      endpoint listed in every cycle, whose counter is there at every reading and never falls, the
      reported rates times their intervals add up to the last reading minus the first, whatever cycles
      it was unreachable in. */
  lemma {:induction false} RunRatesAddUp(run: seq<Collection>, key: string, m: Meter)
    requires ListedThroughout(run, key) && Steady(CyclesOf(run, key), m)
    ensures var held, first := Lookup(TableAfter(run), key), FirstReading(CyclesOf(run, key), m);
      && (held.Some? <==> first.Some?)
      && (held.Some? ==> Reading(held.value.counters, m).Some?)
      && ProgressReported(run, key, m) == if held.None? then 0.0 else Reading(held.value.counters, m).value - first.value
  {
    TableHolds(run, key);
    ReportedIsProgress(run, key, m);
    RatesAddUp(CyclesOf(run, key), m);
  }

  lemma {:induction false} PrefixGrows<T>(before: seq<T>, items: seq<T>, j: nat)
    requires j < |items|
    ensures before + items[..j + 1] == (before + items[..j]) + [items[j]]
  {
  }

  // ---- The tracker ----

  class Tracker {
    var processes: map<string, Sample>
    var endpoints: map<string, EndpointSample>
    const growthWarning: int

    constructor (growthWarning: int)
      ensures processes == map[] && endpoints == map[] && this.growthWarning == growthWarning
    {
      processes, endpoints := map[], map[];
      this.growthWarning := growthWarning;
    }

    function GrowthThreshold(): int { if growthWarning > 0 then growthWarning else 256 }

    /** One process of one GPU. */
    method Look(u: Usage, now: int) returns (findings: seq<Finding>)
      modifies this`processes
      ensures processes == old(processes)[KeyOf(u) := Sample(u.process.memory, now)]
      ensures findings == Growth(old(processes), u, now, GrowthThreshold())
    {
      findings := [];
      var key := Key(u.uuid, u.process.pid);
      if key in processes {
        var elapsedMs := Millis(now - processes[key].at);
        var growth := u.process.memory - processes[key].memory;
        if elapsedMs >= 1_000 && growth >= GrowthThreshold() {
          findings := [Finding(u.index, u.process, growth)];
        }
      }
      processes := processes[key := Sample(u.process.memory, now)];
    }

    ghost predicate After(start: map<string, Sample>, usages: seq<Usage>, now: int, seen: set<string>, findings: seq<Finding>)
      reads this
    {
      seen == KeysOf(usages) && processes == Stored(start, usages, now) && findings == Found(start, usages, now, GrowthThreshold())
    }

    method ObserveGpu(g: Gpu, now: int, ghost start: map<string, Sample>, ghost usages: seq<Usage>, seen: set<string>, findings: seq<Finding>)
      returns (seenAfter: set<string>, findingsAfter: seq<Finding>)
      requires After(start, usages, now, seen, findings)
      modifies this`processes
      ensures After(start, usages + UsagesOf(g), now, seenAfter, findingsAfter)
    {
      seenAfter, findingsAfter := seen, findings;
      ghost var all := usages;
      for j := 0 to |g.processes|
        invariant all == usages + UsagesOf(g)[..j] && After(start, all, now, seenAfter, findingsAfter)
      {
        var u := Usage(g.uuid, g.index, g.processes[j]);
        KeysOfMore(all, u);
        StoredOfMore(start, all, u, now);
        FoundOfMore(start, all, u, now, GrowthThreshold());
        seenAfter := seenAfter + {KeyOf(u)};
        PrefixGrows(usages, UsagesOf(g), j);
        var found := Look(u, now);
        findingsAfter := findingsAfter + found;
        all := all + [u];
      }
      assert UsagesOf(g)[..|g.processes|] == UsagesOf(g);
    }

    method Observe(gpus: seq<Gpu>, now: int) returns (findings: seq<Finding>)
      modifies this`processes
      ensures processes == Restricted(Stored(old(processes), Usages(gpus), now), KeysOf(Usages(gpus)))
      ensures findings == Found(old(processes), Usages(gpus), now, GrowthThreshold())
    {
      findings := [];
      var seen: set<string> := {};
      ghost var start := processes;
      assert KeysOf([]) == {};
      for i := 0 to |gpus|
        invariant After(start, Usages(gpus[..i]), now, seen, findings)
      {
        assert gpus[..i + 1][..i] == gpus[..i];
        seen, findings := ObserveGpu(gpus[i], now, start, Usages(gpus[..i]), seen, findings);
      }
      assert gpus[..|gpus|] == gpus;
      processes := Restricted(processes, seen);
    }

    /** One endpoint of a cycle. */
    method ObserveEndpoint(e: Endpoint, now: int) returns (after: Endpoint)
      modifies this`endpoints
      ensures after == e.(rates := NextRates(Lookup(old(endpoints), EndpointKey(e)), e, now))
      ensures endpoints
           == match EntryOf(e, now).1 { case None => old(endpoints) case Some(sample) => old(endpoints)[EndpointKey(e) := sample] }
    {
      after := e;
      if !HasReading(e) { return; }
      var key := EndpointKey(e);
      if key in endpoints {
        var elapsed := Seconds(now - endpoints[key].at);
        if elapsed > 0.0 {
          var rates := DeriveRates(endpoints[key].counters, e.counters, elapsed);
          after := e.(rates := Some(rates));
        }
      }
      endpoints := endpoints[key := EndpointSample(e.counters, now)];
    }

    /** The first `i` endpoints of a list have been observed, the others are as given. */
    ghost predicate Halfway(start: map<string, EndpointSample>, given: seq<Endpoint>, list: seq<Endpoint>, i: nat, now: int)
      requires i <= |given|
      reads this
    {
      endpoints == Sampled(start, EntriesOf(given, now), i) && list == Rated(start, given, i, now) + given[i..]
    }

    method ObserveAt(list: array<Endpoint>, i: nat, now: int, ghost start: map<string, EndpointSample>, ghost given: seq<Endpoint>)
      returns (key: string)
      requires i < list.Length == |given| && Halfway(start, given, list[..], i, now)
      modifies this`endpoints, list
      ensures Halfway(start, given, list[..], i + 1, now)
      ensures key == EntriesOf(given, now)[i].0
    {
      assert list[i] == list[..][i] == given[i];
      key := EndpointKey(list[i]);
      var after := ObserveEndpoint(list[i], now);
      SampledStep(start, given, i, now, after);
      NextIsRated(start, given, i, now, after);
      ghost var before := list[..];
      list[i] := after;
      assert list[..] == before[i := after];
    }

    lemma {:induction false} HalfwayStart(given: seq<Endpoint>, now: int)
      ensures Halfway(endpoints, given, given, 0, now)
    {
      assert Rated(endpoints, given, 0, now) + given[0..] == given;
    }

    lemma {:induction false} HalfwayEnd(start: map<string, EndpointSample>, given: seq<Endpoint>, list: seq<Endpoint>, now: int)
      requires Halfway(start, given, list, |given|, now)
      ensures endpoints == Sampled(start, EntriesOf(given, now), |given|) && list == Rated(start, given, |given|, now)
    {
      assert given[|given|..] == [];
    }

    /** All endpoints in turn; the keys met are returned. */
    method ObserveAll(list: array<Endpoint>, now: int) returns (seen: set<string>)
      modifies this`endpoints, list
      ensures Halfway(old(endpoints), old(list[..]), list[..], list.Length, now)
      ensures seen == EntryKeys(EntriesOf(old(list[..]), now), list.Length)
    {
      ghost var start, given := endpoints, list[..];
      seen := {};
      HalfwayStart(given, now);
      for i := 0 to list.Length
        invariant Halfway(start, given, list[..], i, now) && seen == EntryKeys(EntriesOf(given, now), i)
      {
        var key := ObserveAt(list, i, now, start, given);
        seen := seen + {key};
      }
    }

    /** Convert monotonic runtime counters into rates, writing them into the endpoints in place. */
    method ObserveEndpoints(list: array<Endpoint>, now: int)
      modifies this`endpoints, list
      ensures endpoints == TableNext(old(endpoints), old(list[..]), now)
      ensures list[..] == Rated(old(endpoints), old(list[..]), list.Length, now)
    {
      var seen := ObserveAll(list, now);
      HalfwayEnd(old(endpoints), old(list[..]), list[..], now);
      endpoints := Restricted(endpoints, seen);
    }
  }
}
