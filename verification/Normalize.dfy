/** Which runtime a metric family belongs to, and what one sample adds to the gauges and counters. */
module Normalize {
  import opened Common
  import T = SampleText

  const MAX_METRIC_FAMILY_BYTES: nat := 256

  function LowerChar(c: char): char { if 'A' <= c <= 'Z' then 'a' + (c - 'A') else c }

  function Lower(s: string): (r: string)
    ensures |r| == |s|
  {
    seq(|s|, i requires 0 <= i < |s| => LowerChar(s[i]))
  }

  predicate StartsWith(s: string, prefix: string) { OccursAt(prefix, s, 0) }

  predicate EndsWith(s: string, suffix: string) { OccursAt(suffix, s, |s| - |suffix|) }

  predicate Contains(s: string, part: string) { exists i | 0 <= i <= |s| :: OccursAt(part, s, i) }

  predicate ContainsAny(s: string, parts: seq<string>) { exists i | 0 <= i < |parts| :: Contains(s, parts[i]) }

  function MetricFamily(key: string): string {
    match T.Find(key, '{') case None => key case Some(i) => key[..i]
  }

  predicate ValidMetricFamily(family: string) {
    && family != [] && Utf8Len(family) <= MAX_METRIC_FAMILY_BYTES
    && (T.IsNameStart(family[0]) || family[0] == ':')
    && forall i | 0 <= i < |family| :: T.IsNameChar(family[i]) || family[i] == ':'
  }

  /** The serving runtime a family names; empty for a family nobody knows. */
  function RuntimeForMetric(name: string): string {
    var family := Lower(name);
    if StartsWith(family, "vllm:") || StartsWith(family, "vllm_") then "vllm"
    else if StartsWith(family, "tgi:") || StartsWith(family, "tgi_") then "tgi"
    else if StartsWith(family, "triton:") || StartsWith(family, "triton_")
         || StartsWith(family, "nv_inference_") || StartsWith(family, "nv_gpu_") then "triton"
    else if StartsWith(family, "ollama:") || StartsWith(family, "ollama_") then "ollama"
    else if StartsWith(family, "sglang:") || StartsWith(family, "sglang_") then "sglang"
    else if StartsWith(family, "tensorrt_llm_") || StartsWith(family, "trtllm_") then "tensorrt-llm"
    else ""
  }

  datatype Gauges = Gauges(requestsRunning: Option<real>, requestsWaiting: Option<real>, kvCacheUsagePercent: Option<real>)

  datatype Counters = Counters(
    requestsCompleted: Option<real>, requestErrors: Option<real>, promptTokens: Option<real>,
    generationTokens: Option<real>, preemptions: Option<real>, latencySum: Option<real>, latencyCount: Option<real>,
    ttftSum: Option<real>, ttftCount: Option<real>, tpotSum: Option<real>, tpotCount: Option<real>)

  // ---- Which reading a family feeds; every family is in lower case here ----

  predicate IsRunning(f: string) {
    ContainsAny(f, ["num_requests_running", "requests_running", "batch_current_size"])
  }

  predicate IsWaiting(f: string) {
    ContainsAny(f, ["num_requests_waiting", "requests_waiting", "queue_size", "pending_request_count"])
  }

  predicate IsCacheUsage(f: string) {
    ContainsAny(f, ["gpu_cache_usage_perc", "kv_cache_usage_perc", "kv_cache_usage_percent",
                    "kv_cache_utilization", "kv_cache_usage_ratio"])
  }

  predicate IsCompleted(f: string) {
    || ContainsAny(f, ["request_success_total", "requests_success_total", "nv_inference_request_success"])
    || (EndsWith(f, "request_count") && !ContainsAny(f, ["pending_request_count", "waiting_request_count"]))
  }

  predicate IsError(f: string) {
    ContainsAny(f, ["request_failure_total", "request_errors_total", "requests_failed_total",
                    "nv_inference_request_failure"])
  }

  predicate IsPromptTokens(f: string) {
    ContainsAny(f, ["prompt_tokens_total", "input_tokens_total", "request_input_length_sum"])
  }

  predicate IsGenerationTokens(f: string) {
    ContainsAny(f, ["generation_tokens_total", "generated_tokens_total", "output_tokens_total"])
  }

  predicate IsPreemption(f: string) { Contains(f, "preemption") && EndsWith(f, "_total") }

  predicate IsLatencySum(f: string) {
    ContainsAny(f, ["e2e_request_latency_seconds_sum", "request_duration_seconds_sum"])
  }

  predicate IsLatencyCount(f: string) {
    ContainsAny(f, ["e2e_request_latency_seconds_count", "request_duration_seconds_count"])
  }

  predicate IsTtftSum(f: string) { Contains(f, "time_to_first_token_seconds_sum") }

  predicate IsTtftCount(f: string) { Contains(f, "time_to_first_token_seconds_count") }

  predicate IsTpotSum(f: string) {
    ContainsAny(f, ["time_per_output_token_seconds_sum", "inter_token_latency_seconds_sum"])
  }

  predicate IsTpotCount(f: string) {
    ContainsAny(f, ["time_per_output_token_seconds_count", "inter_token_latency_seconds_count"])
  }

  // ---- What one sample does ----

  function Add(counter: Option<real>, hit: bool, value: real): Option<real> {
    if hit then Some(counter.GetOr(0.0) + value) else counter
  }

  function Percent(value: real): real { if 0.0 <= value <= 1.0 then value * 100.0 else value }

  function Raise(gauge: Option<real>, hit: bool, value: real): Option<real> {
    if hit && (gauge.None? || value > gauge.value) then Some(value) else gauge
  }

  function NormalizedGauges(g: Gauges, f: string, value: real): Gauges {
    var running, waiting := IsRunning(f), !IsRunning(f) && IsWaiting(f);
    Gauges(
      Add(g.requestsRunning, running, value),
      Add(g.requestsWaiting, waiting, value),
      Raise(g.kvCacheUsagePercent, !running && !waiting && IsCacheUsage(f), Percent(value)))
  }

  function NormalizedRequests(c: Counters, f: string, value: real): Counters {
    c.(requestsCompleted := Add(c.requestsCompleted, IsCompleted(f), value),
       requestErrors := Add(c.requestErrors, IsError(f), value),
       promptTokens := Add(c.promptTokens, IsPromptTokens(f), value),
       generationTokens := Add(c.generationTokens, IsGenerationTokens(f), value),
       preemptions := Add(c.preemptions, IsPreemption(f), value))
  }

  function NormalizedLatencies(c: Counters, f: string, value: real): Counters {
    c.(latencySum := Add(c.latencySum, IsLatencySum(f), value),
       latencyCount := Add(c.latencyCount, IsLatencyCount(f), value),
       ttftSum := Add(c.ttftSum, IsTtftSum(f), value), ttftCount := Add(c.ttftCount, IsTtftCount(f), value),
       tpotSum := Add(c.tpotSum, IsTpotSum(f), value), tpotCount := Add(c.tpotCount, IsTpotCount(f), value))
  }

  function NormalizedCounters(c: Counters, f: string, value: real): Counters {
    NormalizedLatencies(NormalizedRequests(c, f, value), f, value)
  }

  lemma {:induction false} AddsCommute(c: Option<real>, a: bool, v: real, b: bool, w: real)
    ensures Add(Add(c, a, v), b, w) == Add(Add(c, b, w), a, v)
  {
  }

  lemma {:induction false} GaugesCommute(g: Gauges, f: string, v: real, h: string, w: real)
    ensures NormalizedGauges(NormalizedGauges(g, f, v), h, w) == NormalizedGauges(NormalizedGauges(g, h, w), f, v)
  {
  }

  /** Every counter ends up the same whichever of two samples comes first. */
  lemma {:induction false} CountersCommute(c: Counters, f: string, v: real, h: string, w: real)
    ensures NormalizedCounters(NormalizedCounters(c, f, v), h, w) == NormalizedCounters(NormalizedCounters(c, h, w), f, v)
  {
    AddsCommute(c.requestsCompleted, IsCompleted(f), v, IsCompleted(h), w);
    AddsCommute(c.requestErrors, IsError(f), v, IsError(h), w);
    AddsCommute(c.promptTokens, IsPromptTokens(f), v, IsPromptTokens(h), w);
    AddsCommute(c.generationTokens, IsGenerationTokens(f), v, IsGenerationTokens(h), w);
    AddsCommute(c.preemptions, IsPreemption(f), v, IsPreemption(h), w);
    AddsCommute(c.latencySum, IsLatencySum(f), v, IsLatencySum(h), w);
    AddsCommute(c.latencyCount, IsLatencyCount(f), v, IsLatencyCount(h), w);
    AddsCommute(c.ttftSum, IsTtftSum(f), v, IsTtftSum(h), w);
    AddsCommute(c.ttftCount, IsTtftCount(f), v, IsTtftCount(h), w);
    AddsCommute(c.tpotSum, IsTpotSum(f), v, IsTpotSum(h), w);
    AddsCommute(c.tpotCount, IsTpotCount(f), v, IsTpotCount(h), w);
  }
}
