/** What a whole scan leaves in the gauges and counters, and which families feed them. */
module ScanReadings {
  import opened Collector
  import opened Common
  import D = Distribution
  import opened Families
  import N = Normalize
  import opened Probe
  import R = SampleRoundTrip
  import Sorting
  import T = SampleText

  // ---- Readings that add up ----

  /** Two gauges and all counters are sums. */
  datatype Sum =
    | Running | Waiting | Completed | Errors | PromptTokens | GenerationTokens | Preemptions
    | LatencySum | LatencyCount | TtftSum | TtftCount | TpotSum | TpotCount

  function ReadingOf(scan: Scan, r: Sum): Option<real> {
    match r
    case Running => scan.gauges.requestsRunning
    case Waiting => scan.gauges.requestsWaiting
    case Completed => scan.counters.requestsCompleted
    case Errors => scan.counters.requestErrors
    case PromptTokens => scan.counters.promptTokens
    case GenerationTokens => scan.counters.generationTokens
    case Preemptions => scan.counters.preemptions
    case LatencySum => scan.counters.latencySum
    case LatencyCount => scan.counters.latencyCount
    case TtftSum => scan.counters.ttftSum
    case TtftCount => scan.counters.ttftCount
    case TpotSum => scan.counters.tpotSum
    case TpotCount => scan.counters.tpotCount
  }

  /** The family, in lower case, feeds the reading. */
  predicate Feeds(r: Sum, f: string) {
    match r
    case Running => N.IsRunning(f)
    case Waiting => N.IsWaiting(f) && !N.IsRunning(f)
    case Completed => N.IsCompleted(f)
    case Errors => N.IsError(f)
    case PromptTokens => N.IsPromptTokens(f)
    case GenerationTokens => N.IsGenerationTokens(f)
    case Preemptions => N.IsPreemption(f)
    case LatencySum => N.IsLatencySum(f)
    case LatencyCount => N.IsLatencyCount(f)
    case TtftSum => N.IsTtftSum(f)
    case TtftCount => N.IsTtftCount(f)
    case TpotSum => N.IsTpotSum(f)
    case TpotCount => N.IsTpotCount(f)
  }

  /** The values a body holds for a reading, in order. */
  ghost function ValuesFor(r: Sum, lines: seq<string>, parse: string -> Option<Number>): seq<real> {
    if lines == [] then []
    else
      var s := Classify(lines[|lines| - 1], parse);
      ValuesFor(r, lines[..|lines| - 1], parse) + if s.Counted? && Feeds(r, N.Lower(s.family)) then [s.value] else []
  }

  /** A reading with values added, which is not there without any. */
  ghost predicate IsSumOf(after: Option<real>, before: Option<real>, values: seq<real>) {
    if values == [] then after == before else after == Some(before.GetOr(0.0) + D.Sum(values))
  }

  lemma {:induction false} OneMoreSummed(before: Option<real>, at: Option<real>, values: seq<real>, hit: bool, value: real)
    requires IsSumOf(at, before, values)
    ensures IsSumOf(N.Add(at, hit, value), before, values + if hit then [value] else [])
  {
    if hit {
      assert values + (if hit then [value] else []) == values + [value];
      assert (values + [value])[..|values|] == values;
    } else {
      assert values + (if hit then [value] else []) == values;
    }
  }

  lemma {:induction false} TakeAdds(scan: Scan, s: Sample, parse: string -> Option<Number>, r: Sum)
    ensures ReadingOf(Take(scan, s, parse), r)
         == if s.Counted? then N.Add(ReadingOf(scan, r), Feeds(r, N.Lower(s.family)), s.value) else ReadingOf(scan, r)
  {
  }

  /** After a scan each of these readings is what it was before plus everything the body holds for it. */
  lemma {:induction false} ReadingsAddUp(start: Scan, lines: seq<string>, parse: string -> Option<Number>, r: Sum)
    ensures IsSumOf(ReadingOf(Sorting.Fold(LineStep(parse), start, lines), r), ReadingOf(start, r), ValuesFor(r, lines, parse))
  {
    if lines != [] {
      var last := |lines| - 1;
      var s := Classify(lines[last], parse);
      var before := Sorting.Fold(LineStep(parse), start, lines[..last]);
      ReadingsAddUp(start, lines[..last], parse, r);
      OneMoreLine(start, lines, last, parse);
      assert lines[..last + 1] == lines;
      TakeAdds(before, s, parse, r);
      OneMoreSummed(ReadingOf(start, r), ReadingOf(before, r), ValuesFor(r, lines[..last], parse), s.Counted? && Feeds(r, N.Lower(s.family)),
                    if s.Counted? then s.value else 0.0);
    }
  }

  // ---- Budgets ----

  /** How many lines of a body count. */
  ghost function CountedLines(lines: seq<string>, parse: string -> Option<Number>): nat {
    |Where(lines, (line: string) => Classify(line, parse).Counted?)|
  }

  /** The bytes of the families they name. */
  ghost function FamilyBytes(lines: seq<string>, parse: string -> Option<Number>): nat {
    if lines == [] then 0
    else
      var s := Classify(lines[|lines| - 1], parse);
      FamilyBytes(lines[..|lines| - 1], parse) + if s.Counted? then Utf8Len(s.family) else 0
  }

  lemma {:induction false} OneMoreCounted(lines: seq<string>, parse: string -> Option<Number>)
    requires lines != []
    ensures CountedLines(lines, parse)
         == CountedLines(lines[..|lines| - 1], parse) + if Classify(lines[|lines| - 1], parse).Counted? then 1 else 0
  {
    WhereGrows(lines, (line: string) => Classify(line, parse).Counted?);
  }

  lemma {:induction false} TakeCounts(scan: Scan, s: Sample, parse: string -> Option<Number>)
    ensures Take(scan, s, parse).counted == scan.counted + if s.Counted? then 1 else 0
    ensures Take(scan, s, parse).familyBytes == scan.familyBytes + if s.Counted? then Utf8Len(s.family) else 0
  {
  }

  lemma {:induction false} BudgetsSpent(start: Scan, lines: seq<string>, parse: string -> Option<Number>)
    ensures var scan := Sorting.Fold(LineStep(parse), start, lines);
      scan.counted == start.counted + CountedLines(lines, parse) && scan.familyBytes == start.familyBytes + FamilyBytes(lines, parse)
  {
    if lines == [] {
      assert Where(lines, (line: string) => Classify(line, parse).Counted?) == {};
    } else {
      var last := |lines| - 1;
      BudgetsSpent(start, lines[..last], parse);
      OneMoreLine(start, lines, last, parse);
      assert lines[..last + 1] == lines;
      TakeCounts(Sorting.Fold(LineStep(parse), start, lines[..last]), Classify(lines[last], parse), parse);
      OneMoreCounted(lines, parse);
    }
  }

  /** A scan is cut short iff its counting lines, with the samples there were, outnumber the one budget,
      or name families of more bytes than the other. */
  lemma {:induction false} CutShortIff(
    lines: seq<string>, runtimes: set<string>, gauges: N.Gauges, counters: N.Counters, parse: string -> Option<Number>,
    already: nat, maxSamples: nat, maxFamilyBytes: nat)
    ensures Overruns(ScanOf(lines, runtimes, gauges, counters, parse), already, maxSamples, maxFamilyBytes)
       <==> CountedLines(lines, parse) > 0
            && (already + CountedLines(lines, parse) > maxSamples || FamilyBytes(lines, parse) > maxFamilyBytes)
  {
    BudgetsSpent(Fresh(runtimes, gauges, counters), lines, parse);
  }

  // ---- The cache gauge ----

  /** A share that a sample tells, in percent: one given as a ratio is scaled. */
  ghost function ShareIn(s: Sample): Option<real> {
    match s
    case Skipped => None
    case Unreadable(_) => None
    case Counted(family, _, _, _, value) =>
      var f := N.Lower(family);
      if !N.IsCacheUsage(f) || N.IsRunning(f) || N.IsWaiting(f) then None
      else if value < 0.0 || 1.0 < value then Some(value)
      else Some(value * 100.0)
  }

  ghost function ShareOf(line: string, parse: string -> Option<Number>): Option<real> { ShareIn(Classify(line, parse)) }

  /** The largest of what was there and what the body holds. */
  ghost predicate IsLargest(after: Option<real>, before: Option<real>, lines: seq<string>, parse: string -> Option<Number>) {
    && (after == before || exists line :: line in lines && ShareOf(line, parse) == after)
    && (before.Some? ==> after.Some? && before.value <= after.value)
    && forall line :: line in lines && ShareOf(line, parse).Some? ==> after.Some? && ShareOf(line, parse).value <= after.value
  }

  lemma {:induction false} GaugeRaised(g: N.Gauges, f: string, value: real)
    ensures N.NormalizedGauges(g, f, value).kvCacheUsagePercent
         == if !N.IsCacheUsage(f) || N.IsRunning(f) || N.IsWaiting(f) then g.kvCacheUsagePercent
            else N.Raise(g.kvCacheUsagePercent, true, if value < 0.0 || 1.0 < value then value else value * 100.0)
  {
  }

  lemma {:induction false} TakeGauges(scan: Scan, s: Sample, parse: string -> Option<Number>)
    ensures Take(scan, s, parse).gauges == if s.Counted? then N.NormalizedGauges(scan.gauges, N.Lower(s.family), s.value) else scan.gauges
  {
  }

  lemma {:induction false} TakeRaises(scan: Scan, s: Sample, parse: string -> Option<Number>, after: Option<real>)
    requires after == Take(scan, s, parse).gauges.kvCacheUsagePercent
    ensures after == if ShareIn(s).None? then scan.gauges.kvCacheUsagePercent else N.Raise(scan.gauges.kvCacheUsagePercent, true, ShareIn(s).value)
  {
    TakeGauges(scan, s, parse);
    if s.Counted? { GaugeRaised(scan.gauges, N.Lower(s.family), s.value); }
  }

  lemma {:induction false} OneMoreLargest(before: Option<real>, at: Option<real>, after: Option<real>, lines: seq<string>, parse: string -> Option<Number>)
    requires lines != [] && IsLargest(at, before, lines[..|lines| - 1], parse)
    requires var share := ShareOf(lines[|lines| - 1], parse); after == if share.None? then at else N.Raise(at, true, share.value)
    ensures IsLargest(after, before, lines, parse)
  {
    var init, last := lines[..|lines| - 1], lines[|lines| - 1];
    assert forall line :: line in lines <==> line in init || line == last;
  }

  /** After a scan the cache gauge is the largest share, in percent, that it held or the body holds. */
  lemma {:induction false} CacheUsageIsLargest(start: Scan, lines: seq<string>, parse: string -> Option<Number>)
    ensures IsLargest(Sorting.Fold(LineStep(parse), start, lines).gauges.kvCacheUsagePercent, start.gauges.kvCacheUsagePercent, lines, parse)
  {
    if lines != [] {
      var last := |lines| - 1;
      var before := Sorting.Fold(LineStep(parse), start, lines[..last]);
      CacheUsageIsLargest(start, lines[..last], parse);
      OneMoreLine(start, lines, last, parse);
      assert lines[..last + 1] == lines;
      TakeRaises(before, Classify(lines[last], parse), parse, Sorting.Fold(LineStep(parse), start, lines).gauges.kvCacheUsagePercent);
      OneMoreLargest(start.gauges.kvCacheUsagePercent, before.gauges.kvCacheUsagePercent,
                     Sorting.Fold(LineStep(parse), start, lines).gauges.kvCacheUsagePercent, lines, parse);
    }
  }

  // ---- Families ----

  lemma {:induction false} ContainsAt(prefix: string, part: string, suffix: string)
    ensures N.Contains(prefix + part + suffix, part) && N.Contains(prefix + part, part)
  {
    assert OccursAt(part, prefix + part + suffix, |prefix|);
    assert OccursAt(part, prefix + part, |prefix|);
  }

  lemma {:induction false} AnyContains(f: string, parts: seq<string>, i: nat)
    requires i < |parts| && N.Contains(f, parts[i])
    ensures N.ContainsAny(f, parts)
  {
  }

  /** Whatever comes before and after, a family that holds one of the names is found to. */
  lemma {:induction false} NameFound(prefix: string, parts: seq<string>, i: nat)
    requires i < |parts|
    ensures N.ContainsAny(prefix + parts[i], parts)
  {
    ContainsAt(prefix, parts[i], []);
    AnyContains(prefix + parts[i], parts, i);
  }

  /** The sums that servers publish beside their latency histograms. */
  lemma {:induction false} LatencySumsAreFed(prefix: string)
    ensures Feeds(LatencySum, prefix + "e2e_request_latency_seconds_sum") && Feeds(LatencySum, prefix + "request_duration_seconds_sum")
    ensures Feeds(TtftSum, prefix + "time_to_first_token_seconds_sum")
    ensures Feeds(TpotSum, prefix + "time_per_output_token_seconds_sum") && Feeds(TpotSum, prefix + "inter_token_latency_seconds_sum")
  {
    NameFound(prefix, ["e2e_request_latency_seconds_sum", "request_duration_seconds_sum"], 0);
    NameFound(prefix, ["e2e_request_latency_seconds_sum", "request_duration_seconds_sum"], 1);
    ContainsAt(prefix, "time_to_first_token_seconds_sum", []);
    NameFound(prefix, ["time_per_output_token_seconds_sum", "inter_token_latency_seconds_sum"], 0);
    NameFound(prefix, ["time_per_output_token_seconds_sum", "inter_token_latency_seconds_sum"], 1);
  }

  /** And the counts. */
  lemma {:induction false} LatencyCountsAreFed(prefix: string)
    ensures Feeds(LatencyCount, prefix + "e2e_request_latency_seconds_count") && Feeds(LatencyCount, prefix + "request_duration_seconds_count")
    ensures Feeds(TtftCount, prefix + "time_to_first_token_seconds_count")
    ensures Feeds(TpotCount, prefix + "time_per_output_token_seconds_count") && Feeds(TpotCount, prefix + "inter_token_latency_seconds_count")
  {
    NameFound(prefix, ["e2e_request_latency_seconds_count", "request_duration_seconds_count"], 0);
    NameFound(prefix, ["e2e_request_latency_seconds_count", "request_duration_seconds_count"], 1);
    ContainsAt(prefix, "time_to_first_token_seconds_count", []);
    NameFound(prefix, ["time_per_output_token_seconds_count", "inter_token_latency_seconds_count"], 0);
    NameFound(prefix, ["time_per_output_token_seconds_count", "inter_token_latency_seconds_count"], 1);
  }

  /** Requests, by the names of the common servers. */
  lemma {:induction false} RequestsAreFed(prefix: string)
    ensures Feeds(Running, prefix + "num_requests_running")
    ensures Feeds(Waiting, prefix + "num_requests_waiting") || Feeds(Running, prefix + "num_requests_waiting")
    ensures Feeds(Completed, prefix + "request_success_total") && Feeds(Errors, prefix + "request_failure_total")
  {
    NameFound(prefix, ["num_requests_running", "requests_running", "batch_current_size"], 0);
    NameFound(prefix, ["num_requests_waiting", "requests_waiting", "queue_size", "pending_request_count"], 0);
    NameFound(prefix, ["request_success_total", "requests_success_total", "nv_inference_request_success"], 0);
    NameFound(prefix, ["request_failure_total", "request_errors_total", "requests_failed_total", "nv_inference_request_failure"], 0);
  }

  /** Tokens. */
  lemma {:induction false} TokensAreFed(prefix: string)
    ensures Feeds(PromptTokens, prefix + "prompt_tokens_total") && Feeds(GenerationTokens, prefix + "generation_tokens_total")
  {
    NameFound(prefix, ["prompt_tokens_total", "input_tokens_total", "request_input_length_sum"], 0);
    NameFound(prefix, ["generation_tokens_total", "generated_tokens_total", "output_tokens_total"], 0);
  }

  lemma {:induction false} PreemptionsAreFed(prefix: string)
    ensures Feeds(Preemptions, prefix + "num_preemptions_total")
  {
    ContainsAt(prefix + "num_", "preemption", "s_total");
    assert prefix + "num_preemptions_total" == prefix + "num_" + "preemption" + "s_total";
    assert OccursAt("_total", prefix + "num_preemptions_total", |prefix| + 15);
  }

  /** A suffix that stands in the table is found, as the names in the table are distinct. */
  lemma {:induction false} SchemaFound(table: seq<(string, Kind, Schema)>, i: nat)
    requires i < |table| && forall j :: 0 <= j < i ==> table[j].0 != table[i].0
    ensures FindSchema(table[i].0, table) == Some((table[i].1, table[i].2))
  {
    if i > 0 {
      assert table[0].0 != table[i].0;
      SchemaFound(table[1..], i - 1);
    }
  }

  lemma {:induction false} PrefixFound(family: string, table: seq<(string, Runtime, Prefix)>, i: nat)
    requires i < |table| && Families.StartsWith(family, table[i].0)
    requires forall j :: 0 <= j < i ==> !Families.StartsWith(family, table[j].0)
    ensures FindPrefix(family, table) == Some((table[i].1, table[i].2, family[|table[i].0|..]))
  {
    if i > 0 {
      assert !Families.StartsWith(family, table[0].0);
      PrefixFound(family, table[1..], i - 1);
    }
  }

  /** No prefix is the beginning of another one. */
  lemma {:induction false} PrefixesApart(i: nat, rest: string)
    requires i < |PREFIXES|
    ensures FindPrefix(PREFIXES[i].0 + rest, PREFIXES) == Some((PREFIXES[i].1, PREFIXES[i].2, rest))
  {
    var family := PREFIXES[i].0 + rest;
    assert forall k :: 0 <= k < |PREFIXES[i].0| ==> family[k] == PREFIXES[i].0[k];
    forall j | 0 <= j < i ensures !Families.StartsWith(family, PREFIXES[j].0) { ApartAt(i, j, family); }
    PrefixFound(family, PREFIXES, i);
    assert family[|PREFIXES[i].0|..] == rest;
  }

  ghost predicate DifferAt(p: string, q: string, k: nat) { k < |p| && k < |q| && p[k] != q[k] }

  lemma {:induction false} TheyDiffer(i: nat, j: nat) returns (k: nat)
    requires j < i < |PREFIXES|
    ensures DifferAt(PREFIXES[i].0, PREFIXES[j].0, k)
  {
    var p, q := PREFIXES[i].0, PREFIXES[j].0;
    k := if p[0] != q[0] then 0 else if p[1] != q[1] then 1 else if p[2] != q[2] then 2 else if p[3] != q[3] then 3
         else if p[4] != q[4] then 4 else 6;
  }

  lemma {:induction false} ApartAt(i: nat, j: nat, family: string)
    requires j < i < |PREFIXES| && |family| >= |PREFIXES[i].0| && forall k :: 0 <= k < |PREFIXES[i].0| ==> family[k] == PREFIXES[i].0[k]
    ensures !Families.StartsWith(family, PREFIXES[j].0)
  {
    var q := PREFIXES[j].0;
    var k := TheyDiffer(i, j);
    if |q| <= |family| { assert family[..|q|][k] != q[k]; }
  }

  /** A bucket family with any of the prefixes belongs to the histogram its name says. */
  lemma {:induction false} HistogramsAreFed(i: nat, j: nat)
    requires i < |PREFIXES| && j < |SCHEMAS|
    ensures RecognizeHistogram(PREFIXES[i].0 + SCHEMAS[j].0) == Some(Recognized(SCHEMAS[j].1, SCHEMAS[j].2, PREFIXES[i].1, PREFIXES[i].2))
  {
    PrefixesApart(i, SCHEMAS[j].0);
    SchemaFound(SCHEMAS, j);
  }

  function KindOf(family: string): Option<Kind> {
    match RecognizeHistogram(family) case None => None case Some(r) => Some(r.kind)
  }

  /** So the histogram of a latency is of the metric whose sum and count make its mean. */
  lemma {:induction false} LatencyKinds(i: nat)
    requires i < |PREFIXES|
    ensures KindOf(PREFIXES[i].0 + "e2e_request_latency_seconds_bucket") == KindOf(PREFIXES[i].0 + "request_duration_seconds_bucket")
         == Some(RequestLatency)
    ensures KindOf(PREFIXES[i].0 + "time_to_first_token_seconds_bucket") == Some(TimeToFirstToken)
    ensures KindOf(PREFIXES[i].0 + "time_per_output_token_seconds_bucket") == KindOf(PREFIXES[i].0 + "inter_token_latency_seconds_bucket")
         == Some(TimePerOutputToken)
    ensures KindOf(PREFIXES[i].0 + "request_queue_time_seconds_bucket") == Some(QueueTime)
  {
    HistogramsAreFed(i, 0);
    HistogramsAreFed(i, 1);
    HistogramsAreFed(i, 3);
    HistogramsAreFed(i, 6);
    HistogramsAreFed(i, 7);
    HistogramsAreFed(i, 10);
  }

  function NameOf(r: Runtime): string {
    match r
    case Vllm => "vllm" case Tgi => "tgi" case Triton => "triton" case Ollama => "ollama" case Sglang => "sglang"
    case TensorRtLlm => "tensorrt-llm"
  }

  lemma {:induction false} LowerIs(prefix: string, rest: string)
    requires forall k :: 0 <= k < |prefix| ==> !('A' <= prefix[k] <= 'Z')
    ensures N.Lower(prefix + rest) == prefix + N.Lower(rest)
  {
  }

  lemma {:induction false} StartsUnlike(f: string, name: string)
    requires |f| >= 3 && |name| >= 3
    ensures N.StartsWith(f, name) ==> f[0] == name[0] && f[1] == name[1] && f[2] == name[2]
  {
    if N.StartsWith(f, name) { assert f[0..0 + |name|] == name; }
  }

  /** No name of the runtime table but those with the same three letters can match. */
  lemma {:induction false} StartsUnlikeAll(f: string)
    requires |f| >= 3
    ensures N.StartsWith(f, "vllm:") || N.StartsWith(f, "vllm_") ==> f[0] == 'v'
    ensures N.StartsWith(f, "tgi:") || N.StartsWith(f, "tgi_") ==> f[1] == 'g' && f[0] == 't'
    ensures N.StartsWith(f, "triton:") || N.StartsWith(f, "triton_") ==> f[0] == 't' && f[1] == 'r' && f[2] == 'i'
    ensures N.StartsWith(f, "nv_inference_") || N.StartsWith(f, "nv_gpu_") ==> f[0] == 'n'
    ensures N.StartsWith(f, "ollama:") || N.StartsWith(f, "ollama_") ==> f[0] == 'o'
    ensures N.StartsWith(f, "sglang:") || N.StartsWith(f, "sglang_") ==> f[0] == 's'
  {
    StartsUnlike(f, "vllm:");
    StartsUnlike(f, "vllm_");
    StartsUnlike(f, "tgi:");
    StartsUnlike(f, "tgi_");
    StartsUnlike(f, "triton:");
    StartsUnlike(f, "triton_");
    StartsUnlike(f, "nv_inference_");
    StartsUnlike(f, "nv_gpu_");
    StartsUnlike(f, "ollama:");
    StartsUnlike(f, "ollama_");
    StartsUnlike(f, "sglang:");
    StartsUnlike(f, "sglang_");
  }

  lemma {:induction false} RuntimeIs(name: string, f: string)
    requires N.Lower(name) == f && |f| >= 3
    ensures N.StartsWith(f, "vllm:") || N.StartsWith(f, "vllm_") ==> N.RuntimeForMetric(name) == "vllm"
    ensures N.StartsWith(f, "tgi:") || N.StartsWith(f, "tgi_") ==> N.RuntimeForMetric(name) == "tgi"
    ensures N.StartsWith(f, "triton:") || N.StartsWith(f, "triton_") || N.StartsWith(f, "nv_inference_") ==> N.RuntimeForMetric(name) == "triton"
    ensures N.StartsWith(f, "ollama:") || N.StartsWith(f, "ollama_") ==> N.RuntimeForMetric(name) == "ollama"
    ensures N.StartsWith(f, "sglang:") || N.StartsWith(f, "sglang_") ==> N.RuntimeForMetric(name) == "sglang"
    ensures (N.StartsWith(f, "tensorrt_llm_") && f[1] == 'e') || (N.StartsWith(f, "trtllm_") && f[2] == 't') ==>
      N.RuntimeForMetric(name) == "tensorrt-llm"
  {
    StartsUnlikeAll(f);
    StartsUnlike(f, "tensorrt_llm_");
    StartsUnlike(f, "trtllm_");
  }

  /** The family starts with the prefix, which tells its runtime by name. */
  lemma {:induction false} PrefixTells(i: nat, name: string, f: string)
    requires i < 3 && N.Lower(name) == f && |f| >= 3 && N.StartsWith(f, PREFIXES[i].0) && f[1] == PREFIXES[i].0[1]
    ensures N.RuntimeForMetric(name) == NameOf(PREFIXES[i].1)
  {
    RuntimeIs(name, f);
  }

  lemma {:induction false} MiddlePrefixTells(i: nat, name: string, f: string)
    requires 3 <= i < 5 && N.Lower(name) == f && |f| >= 3 && N.StartsWith(f, PREFIXES[i].0) && f[2] == PREFIXES[i].0[2]
    ensures N.RuntimeForMetric(name) == NameOf(PREFIXES[i].1)
  {
    RuntimeIs(name, f);
  }

  lemma {:induction false} LaterPrefixTells(i: nat, name: string, f: string)
    requires 5 <= i < |PREFIXES| && N.Lower(name) == f && |f| >= 3 && N.StartsWith(f, PREFIXES[i].0)
    ensures N.RuntimeForMetric(name) == NameOf(PREFIXES[i].1)
  {
    RuntimeIs(name, f);
  }

  lemma {:induction false} PrefixIsLower(i: nat, rest: string, f: string)
    requires i < |PREFIXES| && f == PREFIXES[i].0 + N.Lower(rest)
    ensures N.Lower(PREFIXES[i].0 + rest) == f && |f| >= 3 && f[1] == PREFIXES[i].0[1] && f[2] == PREFIXES[i].0[2]
  {
    LowerIs(PREFIXES[i].0, rest);
  }

  /** The runtime a family counts for is the one under which its histogram is kept. */
  lemma {:induction false} RuntimesAgree(i: nat, rest: string)
    requires i < |PREFIXES|
    ensures N.RuntimeForMetric(PREFIXES[i].0 + rest) == NameOf(PREFIXES[i].1)
  {
    var p := PREFIXES[i].0;
    var f := p + N.Lower(rest);
    PrefixIsLower(i, rest, f);
    assert f[..|p|] == p && N.StartsWith(f, p);
    if i < 3 {
      PrefixTells(i, p + rest, f);
    } else if i < 5 {
      MiddlePrefixTells(i, p + rest, f);
    } else {
      LaterPrefixTells(i, p + rest, f);
    }
  }

  // ---- Lines ----

  lemma {:induction false} FamilyOfKey(family: string, labels: seq<T.Label>, trailingComma: bool)
    requires R.IsFamily(family)
    ensures N.MetricFamily(R.PrintKey(family, labels, trailingComma)) == family
  {
    var rest := R.PrintLabels(labels, trailingComma) + "}";
    assert R.PrintKey(family, labels, trailingComma) == family + "{" + rest;
    R.FindAfter(family, '{', rest);
  }

  lemma {:induction false} TrimKeeps(line: string)
    requires line != [] && !IsWhitespace(line[0]) && !IsWhitespace(line[|line| - 1])
    ensures Trim(line) == line
  {
  }

  /** A printed line of a family that names a runtime, with labels of any kind: it counts, under its
      family and with its value, when the value is a finite number. When it is not, the line spoils the
      histogram of its family, if it is of one, and is skipped otherwise. */
  lemma {:induction false} PrintedLineIs(family: string, labels: seq<T.Label>, trailingComma: bool, value: string, parse: string -> Option<Number>)
    requires R.IsFamily(family) && R.WellFormed(labels) && N.ValidMetricFamily(family) && N.RuntimeForMetric(family) != []
    requires value != [] && forall i :: 0 <= i < |value| ==> !IsWhitespace(value[i]) && !IsAsciiWhitespace(value[i])
    ensures var key := R.PrintKey(family, labels, trailingComma);
      Classify(key + " " + value, parse) == match parse(value)
        case Some(Finite(x)) => Counted(family, N.RuntimeForMetric(family), RecognizeHistogram(family), key, x)
        case _ => match KindOf(family) case Some(kind) => Unreadable(kind) case None => Skipped
  {
    var key := R.PrintKey(family, labels, trailingComma);
    var line := key + " " + value;
    R.LineReadBack(family, labels, trailingComma, value, []);
    assert line + [] == line;
    assert line[0] == family[0] && line[|line| - 1] == value[|value| - 1];
    TrimKeeps(line);
    FamilyOfKey(family, labels, trailingComma);
  }

  lemma {:induction false} CountedFeeds(s: Sample, r: Recognized, key: string, count: real, series: string, bound: Option<real>, parse: string -> Option<Number>)
    requires s.Counted? && s.recognized == Some(r) && s.key == key && s.value == count && T.ParseKey(key, parse) == Ok((series, bound))
    ensures PointFor(s, r.kind, parse) == Some(if count < 0.0 then Spoiled else Point(r.schema, StoredKey(r, series), bound, count))
    ensures forall kind :: kind != r.kind ==> PointFor(s, kind, parse).None?
  {
  }

  /** What a printed bucket line feeds its histogram: the count at its bound in the series of its other
      labels, or, when it is negative, an end to it. */
  lemma {:induction false} BucketLineFeeds(
    r: Recognized, family: string, labels: seq<T.Label>, trailingComma: bool, value: string, count: real, raw: string,
    bound: Option<real>, series: string, parse: string -> Option<Number>)
    requires R.IsFamily(family) && R.WellFormed(labels) && R.DistinctNames(labels) && |labels| <= T.MAX_LABELS
    requires N.ValidMetricFamily(family) && N.RuntimeForMetric(family) != [] && RecognizeHistogram(family) == Some(r)
    requires value != [] && forall i :: 0 <= i < |value| ==> !IsWhitespace(value[i]) && !IsAsciiWhitespace(value[i])
    requires parse(value) == Some(Finite(count)) && ("le", raw) in labels && T.UpperBound(raw, parse) == Ok(bound)
    requires Utf8Len(R.PrintKey(family, labels, trailingComma)) <= T.MAX_SAMPLE_KEY_BYTES
    requires T.SeriesKey(R.WithoutBound(labels)) == Ok(series)
    ensures var s := Classify(R.PrintKey(family, labels, trailingComma) + " " + value, parse);
      && PointFor(s, r.kind, parse) == Some(if count < 0.0 then Spoiled else Point(r.schema, StoredKey(r, series), bound, count))
      && forall kind :: kind != r.kind ==> PointFor(s, kind, parse).None?
  {
    PrintedLineIs(family, labels, trailingComma, value, parse);
    R.KeyReadBack(family, labels, trailingComma, parse, raw, bound, series);
    var key := R.PrintKey(family, labels, trailingComma);
    CountedFeeds(Classify(key + " " + value, parse), r, key, count, series, bound, parse);
  }

  lemma {:induction false} ClosedStays(t: Tables, s: Sample, parse: string -> Option<Number>, kind: Kind)
    requires TableFor(t, kind).Closed? || s == Unreadable(kind)
    ensures TableFor(FeedAll(t, s, parse), kind).Closed?
  {
  }

  lemma {:induction false} TakeCloses(scan: Scan, s: Sample, parse: string -> Option<Number>, kind: Kind, after: Scan)
    requires IsClosed(scan, kind) || s == Unreadable(kind)
    requires after == Take(scan, s, parse)
    ensures IsClosed(after, kind)
  {
    ClosedStays(scan.tables, s, parse, kind);
  }

  ghost predicate IsClosed(scan: Scan, kind: Kind) { TableFor(scan.tables, kind).Closed? }

  ghost predicate KeepsClosed(step: (Scan, string) -> Scan, kind: Kind) {
    forall scan, line :: IsClosed(scan, kind) ==> IsClosed(step(scan, line), kind)
  }

  lemma {:induction false} LinesKeepClosed(parse: string -> Option<Number>, kind: Kind)
    ensures KeepsClosed(LineStep(parse), kind)
  {
    forall scan: Scan, line: string | IsClosed(scan, kind) ensures IsClosed(LineStep(parse)(scan, line), kind) {
      TakeCloses(scan, Classify(line, parse), parse, kind, LineStep(parse)(scan, line));
    }
  }

  lemma {:induction false} FoldKeepsClosed(step: (Scan, string) -> Scan, scan: Scan, lines: seq<string>, kind: Kind)
    requires KeepsClosed(step, kind) && IsClosed(scan, kind)
    ensures IsClosed(Sorting.Fold(step, scan, lines), kind)
    decreases lines
  {
    if lines != [] { FoldKeepsClosed(step, step(scan, lines[0]), lines[1..], kind); }
  }

  lemma {:induction false} ClosedAfter(start: Scan, lines: seq<string>, parse: string -> Option<Number>, kind: Kind, at: nat)
    requires at < |lines| && Classify(lines[at], parse) == Unreadable(kind)
    ensures IsClosed(Sorting.Fold(LineStep(parse), start, lines[..at + 1]), kind)
  {
    OneMoreLine(start, lines, at, parse);
    TakeCloses(Sorting.Fold(LineStep(parse), start, lines[..at]), Unreadable(kind), parse, kind,
               Sorting.Fold(LineStep(parse), start, lines[..at + 1]));
  }

  /** A value that cannot be read, wherever it stands in a body, closes the histogram it belongs to. */
  lemma {:induction false} UnreadableCloses(start: Scan, lines: seq<string>, parse: string -> Option<Number>, kind: Kind, at: nat)
    requires at < |lines| && Classify(lines[at], parse) == Unreadable(kind)
    ensures IsClosed(Sorting.Fold(LineStep(parse), start, lines), kind)
  {
    var till := Sorting.Fold(LineStep(parse), start, lines[..at + 1]);
    ClosedAfter(start, lines, parse, kind, at);
    LinesKeepClosed(parse, kind);
    assert lines == lines[..at + 1] + lines[at + 1..];
    Sorting.FoldAppend(LineStep(parse), start, lines[..at + 1], lines[at + 1..]);
    FoldKeepsClosed(LineStep(parse), till, lines[at + 1..], kind);
  }
}
