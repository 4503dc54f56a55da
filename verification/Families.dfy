/** The latency histograms a metrics body may expose, and the identity under which the series of
    one are kept. */
module Families {
  import opened Common
  import T = SampleText
  import R = SampleRoundTrip
  import Sorting

  // ---- Vocabulary ----

  datatype Kind = RequestLatency | TimeToFirstToken | TimePerOutputToken | QueueTime

  datatype Runtime = Vllm | Tgi | Triton | Ollama | Sglang | TensorRtLlm
  {
    function Discriminator(): char {
      match this
      case Vllm => 'v' case Tgi => 'g' case Triton => 'r' case Ollama => 'o' case Sglang => 's' case TensorRtLlm => 't'
    }
  }

  datatype Prefix =
    | TensorRtLlmPrefix | NvInference | TritonColon | TritonUnderscore | Trtllm | OllamaColon | OllamaUnderscore
    | SglangColon | SglangUnderscore | VllmColon | VllmUnderscore | TgiColon | TgiUnderscore
  {
    function Discriminator(): char {
      match this
      case TensorRtLlmPrefix => 'a' case NvInference => 'b' case TritonColon => 'c' case TritonUnderscore => 'd'
      case Trtllm => 'e' case OllamaColon => 'f' case OllamaUnderscore => 'g' case SglangColon => 'h'
      case SglangUnderscore => 'i' case VllmColon => 'j' case VllmUnderscore => 'k' case TgiColon => 'l'
      case TgiUnderscore => 'm'
    }
  }

  datatype Schema =
    | E2eRequestLatency | RequestDuration | RequestLatencySchema | TimeToFirstTokenSchema | TimeToFirstTokenDuration
    | Ttft | TimePerOutputTokenSchema | InterTokenLatency | InterTokenDuration | Tpot | RequestQueueTime
    | QueueTimeSchema | RequestQueueDuration | WaitingTime
  {
    function Discriminator(): char {
      match this
      case E2eRequestLatency => 'a' case RequestDuration => 'b' case RequestLatencySchema => 'c'
      case TimeToFirstTokenSchema => 'd' case TimeToFirstTokenDuration => 'e' case Ttft => 'f'
      case TimePerOutputTokenSchema => 'g' case InterTokenLatency => 'h' case InterTokenDuration => 'i'
      case Tpot => 'j' case RequestQueueTime => 'k' case QueueTimeSchema => 'l' case RequestQueueDuration => 'm'
      case WaitingTime => 'n'
    }
  }

  datatype Recognized = Recognized(kind: Kind, schema: Schema, runtime: Runtime, prefix: Prefix)

  const PREFIXES: seq<(string, Runtime, Prefix)> := [
    ("tensorrt_llm_", TensorRtLlm, TensorRtLlmPrefix), ("nv_inference_", Triton, NvInference),
    ("triton:", Triton, TritonColon), ("triton_", Triton, TritonUnderscore), ("trtllm_", TensorRtLlm, Trtllm),
    ("ollama:", Ollama, OllamaColon), ("ollama_", Ollama, OllamaUnderscore),
    ("sglang:", Sglang, SglangColon), ("sglang_", Sglang, SglangUnderscore),
    ("vllm:", Vllm, VllmColon), ("vllm_", Vllm, VllmUnderscore), ("tgi:", Tgi, TgiColon), ("tgi_", Tgi, TgiUnderscore)]

  const SCHEMAS: seq<(string, Kind, Schema)> := [
    ("e2e_request_latency_seconds_bucket", RequestLatency, E2eRequestLatency),
    ("request_duration_seconds_bucket", RequestLatency, RequestDuration),
    ("request_latency_seconds_bucket", RequestLatency, RequestLatencySchema),
    ("time_to_first_token_seconds_bucket", TimeToFirstToken, TimeToFirstTokenSchema),
    ("time_to_first_token_duration_seconds_bucket", TimeToFirstToken, TimeToFirstTokenDuration),
    ("ttft_seconds_bucket", TimeToFirstToken, Ttft),
    ("time_per_output_token_seconds_bucket", TimePerOutputToken, TimePerOutputTokenSchema),
    ("inter_token_latency_seconds_bucket", TimePerOutputToken, InterTokenLatency),
    ("inter_token_duration_seconds_bucket", TimePerOutputToken, InterTokenDuration),
    ("tpot_seconds_bucket", TimePerOutputToken, Tpot),
    ("request_queue_time_seconds_bucket", QueueTime, RequestQueueTime),
    ("queue_time_seconds_bucket", QueueTime, QueueTimeSchema),
    ("request_queue_duration_seconds_bucket", QueueTime, RequestQueueDuration),
    ("waiting_time_seconds_bucket", QueueTime, WaitingTime)]

  predicate StartsWith(s: string, prefix: string) { |prefix| <= |s| && s[..|prefix|] == prefix }

  function FindPrefix(family: string, table: seq<(string, Runtime, Prefix)>): Option<(Runtime, Prefix, string)> {
    if table == [] then None
    else if StartsWith(family, table[0].0) then Some((table[0].1, table[0].2, family[|table[0].0|..]))
    else FindPrefix(family, table[1..])
  }

  function FindSchema(suffix: string, table: seq<(string, Kind, Schema)>): Option<(Kind, Schema)> {
    if table == [] then None
    else if suffix == table[0].0 then Some((table[0].1, table[0].2))
    else FindSchema(suffix, table[1..])
  }

  function RecognizeHistogram(family: string): Option<Recognized> {
    match FindPrefix(family, PREFIXES)
    case None => None
    case Some((runtime, prefix, suffix)) =>
      match FindSchema(suffix, SCHEMAS)
      case None => None
      case Some((kind, schema)) => Some(Recognized(kind, schema, runtime, prefix))
  }

  /** The key under which a sample's series is kept. */
  function StoredKey(r: Recognized, labelKey: string): string {
    [r.runtime.Discriminator(), r.prefix.Discriminator(), r.schema.Discriminator(), ':'] + labelKey
  }

  lemma {:induction false} DiscriminatorsInjective(r: Recognized, q: Recognized)
    ensures r.runtime.Discriminator() == q.runtime.Discriminator() ==> r.runtime == q.runtime
    ensures r.prefix.Discriminator() == q.prefix.Discriminator() ==> r.prefix == q.prefix
    ensures r.schema.Discriminator() == q.schema.Discriminator() ==> r.schema == q.schema
  {
  }

  lemma {:induction false} TaggedTexts(a: char, b: char, c: char, x: string, d: char, e: char, f: char, y: string)
    requires [a, b, c, ':'] + x == [d, e, f, ':'] + y
    ensures a == d && b == e && c == f && x == y
  {
    var s, t := [a, b, c, ':'] + x, [d, e, f, ':'] + y;
    assert s[0] == a && s[1] == b && s[2] == c && s[4..] == x;
    assert t[0] == d && t[1] == e && t[2] == f && t[4..] == y;
  }

  lemma {:induction false} StoredKeyParts(r: Recognized, x: string, q: Recognized, y: string)
    ensures StoredKey(r, x) == StoredKey(q, y)
       <==> r.runtime == q.runtime && r.prefix == q.prefix && r.schema == q.schema && x == y
  {
    if StoredKey(r, x) == StoredKey(q, y) {
      TaggedTexts(r.runtime.Discriminator(), r.prefix.Discriminator(), r.schema.Discriminator(), x,
                  q.runtime.Discriminator(), q.prefix.Discriminator(), q.schema.Discriminator(), y);
      DiscriminatorsInjective(r, q);
    }
  }

  /** Two samples share a stored series iff they come from the same runtime, prefix and schema and
      carry the same labels, whatever their order. */
  lemma {:induction false} StoredKeyIdentity(r: Recognized, a: seq<T.Label>, q: Recognized, b: seq<T.Label>)
    requires R.DistinctNames(a) && R.DistinctNames(b)
    ensures StoredKey(r, T.Encode(Sorting.Sort(a, T.NameLeq))) == StoredKey(q, T.Encode(Sorting.Sort(b, T.NameLeq)))
       <==> r.runtime == q.runtime && r.prefix == q.prefix && r.schema == q.schema && R.LabelSet(a) == R.LabelSet(b)
  {
    StoredKeyParts(r, T.Encode(Sorting.Sort(a, T.NameLeq)), q, T.Encode(Sorting.Sort(b, T.NameLeq)));
    R.SameKeyIffSameLabels(a, b);
  }

  /** And so do any two samples whose keys the parser accepts: it accepts no key but a printed one of
      labels with distinct names. */
  lemma {:induction false} AcceptedSamplesShareIff(r: Recognized, x: string, q: Recognized, y: string, parse: string -> Option<Number>)
    returns (a: seq<T.Label>, b: seq<T.Label>)
    requires T.ParseKey(x, parse).Ok? && T.ParseKey(y, parse).Ok?
    ensures R.Carries(x, a, parse) && R.Carries(y, b, parse)
    ensures StoredKey(r, T.ParseKey(x, parse).value.0) == StoredKey(q, T.ParseKey(y, parse).value.0)
       <==> r.runtime == q.runtime && r.prefix == q.prefix && r.schema == q.schema
            && R.LabelSet(R.WithoutBound(a)) == R.LabelSet(R.WithoutBound(b))
  {
    a, b := R.AcceptedKeysSameIff(x, y, parse);
    StoredKeyParts(r, T.ParseKey(x, parse).value.0, q, T.ParseKey(y, parse).value.0);
  }
}
