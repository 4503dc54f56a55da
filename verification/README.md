# gpu-watchman: a verified model of its measurements

gpu-watchman measures an inference server and refuses to trust its own evidence unless that evidence
can be rebuilt. This project models the parts of it where that is hard to get right, and proves what
they promise:

- the closed-loop batch executor: a start gate behind a mutex and a condition variable, workers over
  contiguous index ranges, and the merging of their results (`Workload`, `StartGate`, `GateTiming`,
  `GateProgress`, `GateReplay`);
- the saturation ladder, from admission over the run to its report, the separately written validator
  of saved reports, and the comparison of two reports (`Admission`, `Target`, `Attempts`, `Distribution`,
  `StageSummary`, `StageVerdict`, `Ladder`, `LadderStops`, `Assessment`, `SignalVerdict`, `SavedReport`, `ProducerAccepted`,
  `RunBudget`, `ReportEvidence`, `WarmupReplay`, `ReportRange`, `RunExists`, `LadderVerdict`,
  `SaturationCompare`, `StageComparison`, `ComparisonVerdict`);
- the Prometheus pipeline: quoted labels, injective series keys, the fail-closed accumulator,
  aggregation, differencing, quantiles and rates over cycles (`SampleText`, `SampleRoundTrip`,
  `Families`, `Collector`, `TableAccount`, `Normalize`, `Probe`, `ScanReadings`, `Histogram`,
  `QuantileEstimate`, `Trend`, `RateFigures`, `ProcessGrowth`);
- the streaming response parser and the incremental matcher behind it, up to the recorded attempt
  (`EventStream`, `EventStreamFacts`, `EventStreamRoundTrip`, `StreamEvidence`, `Json`, `Utf8`,
  `Matcher`, `Completion`, `Client`, `ReplyExists`). The framing is a variant of section 9.2.6 of the WHATWG HTML Living
  Standard;
- the history reader and writer and the checks a stored histogram has to pass (`HistoryReader`).

`Common` and `Sorting` hold what the others share. `dafny verify dfyconfig.toml` checks everything.

## How the code is modelled

What the code updates step by step is a class or a method with loops, proved against a function or a
relation: the start gate, the matcher, the parsed completion, the accumulator and its collector, the
endpoint, the tracker, the line reader and the bounded writer are classes; the worker loop, the
schedule loop, the validators, the label scanner and the event loop are methods. The batch executor is
a transition system over shared state in which each critical section is one step, any enabled step may
come next, and waits may end without a notification. The theorems are about the functions, relations
and runs that these methods are tied to. What a summary, a gate, a verdict or a figure is computed by is
also characterised by what it says of the attempts, events, buckets or lines behind it, with divisions
multiplied out.

Assumptions:

- Measurements are `real`. Every value is then finite, sums do not depend on their order, and the
  comparison of saved evidence to within 16 units in the last place becomes equality.
- Text is a sequence of Unicode scalar values; lengths and limits count UTF-8 bytes. Input that is not
  UTF-8 appears as a way for a stream to end.
- Which decimal literals are numbers, which JSON text has which value, and which schema version a
  history record has if it passes are parameters. A metrics body is given as its lines. Where a text for
  a JSON value is needed, every value has one, on one line, that reads back.
- The URL parser, the test of header texts and whether the HTTP client can be set up are parameters. Of
  the parser it is assumed where needed that the origin of a web URL reads back as a URL with that
  origin and nothing else, and that the empty text is no URL.
- Time is whole nanoseconds. The clock of a worker never runs backwards, and the time of a whole run
  covers its phases.
- `BTreeMap` iterates in key order and the library's sorts order their input; nothing else is assumed
  of them. The scheduler may run any enabled step.

## Findings

Four statements one might expect are false of the code. Each is replaced by the exact condition, and
the first three are refuted by a concrete input as well.

- The validator does not accept every report the benchmark writes. A connection that drops while a
  good response within the size limit is being read leaves a transport failure that still carries the
  HTTP status, and the validator refuses exactly that (`Attempts.InterruptedBodyIsRejected`,
  `Attempts.RecordAcceptedIff`, `Client.RecordedReplyAcceptedIff`, `ProducerAccepted.ReportAcceptedIff`).
  It would also refuse a phase that lasted no time, and an origin of more than 64 KiB.
- The check of saved reports does not repeat the memory estimate of admission, so some plans pass that
  no run can record (`Admission.PlanRecordedIff`, `Admission.UnrecordedPlanPasses`), and some that no run
  can record for a model with a long name (`Admission.PlanRecordedAsIff`, `Admission.LongModelUnrecorded`).
- An accepted warmup row may count expectation failures although no expectation is configured
  (`WarmupReplay.WarmupReplayableIff`, `WarmupReplay.UnproducedWarmupPasses`).
- A report compared with itself can be a regression: a ratio floor above one is accepted
  (`ComparisonVerdict.OwnRegressionIff`).

`ReportRange.AcceptedAndToldIff` puts the first three together: it says exactly which accepted reports
are reports of a run, the texts of prompt, expectation and credential being free and a run being made
of the exchanges that replies can bring about (`ReplyExists.PossibleHasReply`).

## Model

| member | source | states |
|---|---|---|
| `Workload.RangesPartition` | src/operations/workload.rs:189-196 | The index ranges of consecutive workers adjoin, cover `0..count`, differ in length by at most one, and the saturating arithmetic never saturates. |
| `Workload.ExactMultipleRanges` | src/operations/workload.rs:64-67 | When the count is workers times requests per worker, worker `s` gets exactly `(s*r, (s+1)*r)`. |
| `Workload.ExecutorRangesArePartition` | src/operations/workload.rs:103-106 | The ranges the executor hands out are a partition of the index space. |
| `Workload.RunRange` | src/operations/workload.rs:114-124 | The worker loop collects the returned results of its range in order and keeps the smallest panicking index. |
| `Workload.LeastPanic` | src/operations/workload.rs:119-122 | The kept index panicked, and no panicking index of the range is smaller. |
| `Workload.MergeWorkers` | src/operations/workload.rs:147-186 | Joining in slot order and merging: a thread that unwound, else the smallest panic, else a wrong number of results, else all results in index order and the longest duration. |
| `Workload.LongestDuration` | src/operations/workload.rs:149-154 | The batch duration is that of some worker and at least that of every worker. |
| `Workload.MergeOfRanges` | src/operations/workload.rs:160-186 | Workers that did the ranges of a partition merge to every result in index order or to the smallest panicking index; the incomplete-results error cannot occur. |
| `StartGate.Gate.Arrive` | src/operations/workload.rs:229-243 | A worker announces itself and learns whether it has to wait, in one critical section. |
| `StartGate.Gate.LookAgain` | src/operations/workload.rs:236-241 | After a wakeup the worker decides on the state it finds, not on having been woken. |
| `StartGate.Gate.Release` | src/operations/workload.rs:258-265 | Release stores the starting instant and nothing else. |
| `StartGate.Gate.Cancel` | src/operations/workload.rs:267-274 | Cancel marks the gate and leaves the starting instant alone. |
| `StartGate.ExecutorConfigIsValid` | src/operations/workload.rs:78-106 | The worker count and ranges of every batch that is started satisfy what the protocol is proved for. |
| `StartGate.TakeStep` | src/operations/workload.rs:228-275 | The gate and the protocol agree: what any step does to the state under the mutex is one method call, and whether its thread waits afterwards is the answer. |
| `StartGate.StepKeeps` | src/operations/workload.rs:97-187 | Every step of coordinator or worker, spurious wakeups and failed spawns at any slot included, keeps the protocol invariant. |
| `StartGate.GateSafety` | src/operations/workload.rs:228-275 | Over every interleaving: nothing is invoked before all workers arrived and the gate was released, the gate is never both released and cancelled, and a cancelled batch invokes nothing. |
| `StartGate.BatchIndependentOfSchedule` | src/operations/workload.rs:57-77 | A finished batch is a function of the outcomes alone with each index invoked exactly once, or it is the spawn failure with nothing invoked. |
| `StartGate.WorkerTimeWithinDuration` | src/operations/workload.rs:112-126 | The time the invocations of one worker took together fits the reported duration. |
| `StartGate.NeverStuck` | src/operations/workload.rs:229-256 | In every reachable state short of the end some step that is not a spurious wakeup is enabled. |
| `StartGate.MeasureFalls` | src/operations/workload.rs:97-187 | Every step that is not a spurious wakeup lowers a measure, so a batch ends. |
| `GateTiming.BatchWithin` | src/operations/workload.rs:112-126 | When a worker loses at most a gap before each invocation and after its last, a batch takes at most the widest range times longest invocation and gap, and one gap more. |
| `GateProgress.CanFinish` | src/operations/workload.rs:97-187 | Every run that is not done is the beginning of one that is, so no wait is in vain. |
| `GateProgress.CompleteRunExists` | src/operations/workload.rs:57-77 | Every batch has a run that ends with the outcome of all its invocations. |
| `GateReplay.BatchRunExists` | src/operations/workload.rs:57-77 | Any results and any duration in which each worker has room for its invocations are what some run of the protocol ends with. |
| `Matcher.FallBack` | src/inference/openai.rs:362-364 | Falling back along the prefix table discards no match the next byte could extend, and each step is paid for by the match it gives up. |
| `Matcher.PrefixTable` | src/inference/openai.rs:376-389 | Entry `i` is the length of the longest proper border of the first `i + 1` bytes, and the fallbacks taken in all never outnumber the bytes. |
| `Matcher.TableIsBorderTable` | src/inference/openai.rs:376-389 | There is exactly one such table. |
| `Matcher.OutputMatcher.constructor` | src/inference/openai.rs:341-351 | A fresh matcher has the prefix table of its needle and the verdict on the empty text. |
| `Matcher.OutputMatcher.Examine` | src/inference/openai.rs:361-370 | One byte keeps the matcher on the longest match at the end of the text, complete iff the needle now occurs, with fallbacks paid for by earlier advances. |
| `Matcher.OutputMatcher.Scan` | src/inference/openai.rs:361-372 | The loop over a piece ends with the verdict that the needle occurs in all bytes so far, looking at each byte once. |
| `Matcher.OutputMatcher.Push` | src/inference/openai.rs:353-374 | However the text was cut, after any pushes the verdict is substring containment in the concatenated bytes, and fallbacks never exceed the bytes pushed. |
| `Matcher.OutputMatcher.Verdict` | src/inference/openai.rs:330-374 | The expectation is met iff it is a substring of the concatenated pieces, and there was output iff some character of them is not white space. |
| `Utf8.BytesOccurIff` | src/inference/openai.rs:342-343 | Byte containment of UTF-8 texts is containment of the texts, so matching on bytes is sound. |
| `EventStreamFacts.ReachedResultIsFinal` | src/inference/openai.rs:402-466 | A result reached before a stream broke off is the same whatever bytes could have followed. |
| `EventStreamFacts.NothingAfterDone` | src/inference/openai.rs:468-475 | No event after `[DONE]`, nor how the stream ends, changes the result. |
| `EventStreamFacts.SuccessMeans` | src/inference/openai.rs:430-466 | Success implies, within the byte limit, a `[DONE]` event or a properly ended stream with a finish reason. |
| `EventStreamFacts.ContentIsConcatenated` | src/inference/openai.rs:486-511 | What was generated is the concatenated content of the events up to the end, whatever the reasoning texts and however text was cut into events and pieces. |
| `StreamEvidence.FirstTokenIs` | src/inference/openai.rs:486-511 | The first token of an accepted stream came with the first event before the done event whose delta holds a reasoning or content text that is not empty, at the instant that event was handed on; there is none iff there is no such event. |
| `StreamEvidence.FinishReasonIs` | src/inference/openai.rs:486-503 | The recorded finish reason is the first of the five known ones that an event gives, and there is none iff none gives one. |
| `StreamEvidence.TokenCountsAre` | src/inference/openai.rs:565-574 | The recorded token counts are the last ones given. |
| `StreamEvidence.AcceptedIffCompletes` | src/inference/openai.rs:402-513 | A stream is accepted iff no event before its end fails and it says that it is done, or ends properly with a finish reason given. |
| `StreamEvidence.TextsAre` | src/inference/openai.rs:630-645 | The texts of a value: a string is its text, a list the texts of its items in order, an object that of its `text` member, and nothing else has any. |
| `EventStreamRoundTrip.PrintedEventsComeBack` | src/inference/openai.rs:436-460 | Events printed as data lines, with LF or CRLF and with comments and unknown fields between, come back exactly and in order. |
| `EventStream.SingleChoiceIs` | src/inference/openai.rs:592-620 | A choice is found iff it is the only one, an object with index zero or none; no choice is accepted iff there are none, or an empty list where allowed; all else is a protocol failure. |
| `Completion.ParsedCompletion.constructor` | src/inference/openai.rs:317-328 | A fresh completion holds nothing and a matcher for the expectation. |
| `Completion.ParsedCompletion.Verdict` | src/inference/openai.rs:332-374 | The expectation is met iff it is a substring of the concatenated content, and output was generated iff some character of it is not white space. |
| `Completion.ParsedCompletion.VisitContent` | src/inference/openai.rs:504-511 | All non-empty texts of a content value are added in reading order and the first of them is timed once; that the instant is that of the first such text is `StreamEvidence.FirstTokenIs`. |
| `Completion.ParsedCompletion.VisitReasoning` | src/inference/openai.rs:486-502 | Reasoning can time the first token but never changes the content. |
| `Completion.ParsedCompletion.VisitPlain` | src/inference/openai.rs:630-645 | The recursive visit reaches every text of a nested value in reading order. |
| `Completion.ParsedCompletion.ReadChoice` | src/inference/openai.rs:478-511 | The first safe finish reason stays, and the deltas are read in the order of the code. |
| `Completion.ParsedCompletion.ProcessStreamEvent` | src/inference/openai.rs:468-513 | One event finishes the stream, fails as a protocol error, or leaves exactly what the event adds. |
| `Completion.LoopIsRun` | src/inference/openai.rs:402-466 | The line-by-line loop does what the events of the whole text say. |
| `Completion.HandleLine` | src/inference/openai.rs:437-460 | A blank line hands the pending event on, a comment is skipped, a data line grows the event. |
| `Completion.TakeLine` | src/inference/openai.rs:412-460 | Each turn counts the line against the byte limit before it is looked at. |
| `Completion.TakeEnd` | src/inference/openai.rs:424-429 | At the end of the input a pending event is still handed on. |
| `Completion.ReadStream` | src/inference/openai.rs:413-466 | The loop with its one event buffer computes that parse. |
| `Completion.ParseStreamReader` | src/inference/openai.rs:402-466 | A fresh completion after the loop holds what the events of the text come to, or the failure is theirs; what an accepted one holds is told by `StreamEvidence.FirstTokenIs`, `FinishReasonIs` and `TokenCountsAre`. |
| `Client.ParseJsonReader` | src/inference/openai.rs:525-563 | An answer in one piece is refused for a read error, its size, malformed JSON, an error object or a wrong choice, in that order, and else read like a stream. |
| `Client.PlainAnswerIs` | src/inference/openai.rs:525-563 | An answer in one piece is accepted iff it ends properly within the limit and is a JSON value without an error and with one choice or none, and then holds the content, finish reason and token counts that value says. |
| `Client.TakeIs` | src/inference/openai.rs:391-400 | Reading at most one byte above the limit sees a body with its ending iff it fits, and else no read error and at most part of a character less. |
| `Client.FinishAttempt` | src/inference/openai.rs:255-305 | The recorded attempt is the record of the exchange, decided by the matcher. |
| `Client.Execute` | src/inference/openai.rs:185-253 | What is recorded for a reply, streamed or not, is the record of the exchange the reply tells of. |
| `Client.EveryExchangeIsPossible` | src/inference/openai.rs:185-305 | With instants in order every exchange has the shape the benchmark relies on: readable failures, an expectation verdict iff configured, a first-token instant for visible streamed output. |
| `Client.ReadBreaksIff` | src/inference/openai.rs:402-466 | A body is recorded as a transport failure iff its declared length and its text fit the limit, it breaks off, and, streamed, every event of its complete lines went on. |
| `Client.RecordedReplyAcceptedIff` | src/operations/saturation.rs:1516-1522 | The validator accepts the record of any reply except one after a good status whose body breaks off in that way. |
| `ReplyExists.PossibleHasReply` | src/inference/openai.rs:185-305 | Every exchange of that shape is, up to the verdict on an empty output that is not recorded, the exchange of some reply, whatever the expectation. |
| `Histogram.ValidCumulativeHistogram` | src/domain/report.rs:419-454 | The one-pass check accepts exactly the lists of ascending finite bounds ending in infinity with counts that never fall. |
| `Histogram.AddInto` | src/domain/report.rs:471-482 | Adding a series in place adds bucket by bucket, or fails without a common set of bounds. |
| `Histogram.AggregateHistogramSeries` | src/domain/report.rs:456-485 | Aggregation succeeds iff there are between one and the maximum of compatible series, and is their sum. |
| `Histogram.TotalIsCumulative` | src/domain/report.rs:484-484 | Compatible series add up to a valid histogram, so the final test never fails. |
| `Histogram.CompatibleExtension` | src/domain/report.rs:463-483 | Within compatible series every further one continues the total of those before it. |
| `Histogram.DifferenceHistogramBuckets` | src/domain/report.rs:487-516 | Differencing succeeds iff the bounds agree, no bucket fell and the differences are in order. |
| `Histogram.DifferenceIsCumulative` | src/domain/report.rs:487-516 | A difference is again a valid cumulative histogram over the same bounds. |
| `Histogram.FirstReaching` | src/domain/report.rs:537-539 | The bucket searched for is the first whose count reaches the rank. |
| `Histogram.RankFormula` | src/domain/report.rs:534-558 | The quantile interpolates within that bucket and stays between its bounds; by how much is `QuantileEstimate.QuantileIsEstimate`. |
| `Histogram.QuantileBounded` | src/domain/report.rs:534-558 | On a valid histogram with samples each quantile in `(0, 1]` exists and lies between zero and the largest finite bound. |
| `Histogram.QuantileMonotone` | src/domain/report.rs:534-558 | Higher quantiles are never smaller. |
| `QuantileEstimate.QuantileIsEstimate` | src/domain/report.rs:534-558 | Every quantile divides the width of the bucket its rank falls in as the rank divides the samples of that bucket: `(value - lower) * (count - lowerCount) == (upper - lower) * (rank - lowerCount)`; in the last bucket it is the largest finite bound. |
| `QuantileEstimate.EstimateIsUnique` | src/domain/report.rs:534-558 | No other value does. |
| `Histogram.HistogramIsValid` | src/domain/report.rs:404-416 | A snapshot is valid iff it is cumulative and, when live, the sum of its series. |
| `Histogram.FromSeries` | src/domain/report.rs:325-344 | Sorting each series by bound and adding them up yields a valid snapshot or none. |
| `Histogram.DifferenceSeries` | src/domain/report.rs:362-376 | Every pair of series is differenced, or there is no interval. |
| `Histogram.IntervalBetween` | src/domain/report.rs:346-398 | An interval exists only between comparable snapshots: same series keys and bounds, no bucket of any series fallen; its figures are those of `QuantileEstimate.IntervalIsEstimated`. |
| `QuantileEstimate.IntervalIsEstimated` | src/domain/report.rs:346-398 | The p50, p95 and p99 of an interval, in milliseconds, are these estimates at 0.50, 0.95 and 0.99 of its samples over the buckets that were gained. |
| `Histogram.AggregateOfDifferences` | src/domain/report.rs:362-377 | Aggregating the differences of the series equals differencing the aggregates. |
| `Histogram.LiveIntervalsAreStorable` | src/domain/report.rs:379-397 | The quantiles of a live interval are ordered and below the largest finite bound. |
| `Histogram.IntervalSamples` | src/domain/report.rs:346-398 | An interval exists iff the snapshots are comparable and samples arrived, and then holds the total after minus the total before. |
| `Histogram.IntervalsAddUp` | src/domain/report.rs:346-398 | Along a chain of comparable snapshots the samples of the consecutive intervals add up to the interval across the chain. |
| `Distribution.Distribute` | src/operations/canary.rs:424-445 | Sorting in place, summing and taking nearest ranks yields the distribution of the samples. |
| `Distribution.DistributionForgetsOrder` | src/operations/canary.rs:424-440 | The distribution is the same for every order of the samples. |
| `Distribution.DistributionOrdered` | src/operations/canary.rs:424-445 | Minimum, p50, p95, p99 and maximum are ordered, and the mean lies between the extremes. |
| `Distribution.P95WithinThreshold` | src/operations/canary.rs:442-445 | The p95 is at most a threshold iff at least ceil(95 n / 100) of the n samples are. |
| `Distribution.DistributionIs` | src/operations/canary.rs:424-445 | The distribution of any samples holds their number, extremes, mean, and for 50, 95 and 99 the smallest sample that so many of every hundred samples do not exceed. |
| `SampleText.SplitMetricSample` | src/inference/probe.rs:667-696 | The scan with quote and escape flags splits at the first white space outside quotes. |
| `SampleText.ScanName` | src/inference/probe.rs:852-860 | The cursor stops at the first byte that is no label-name character. |
| `SampleText.ScanValue` | src/inference/probe.rs:867-887 | The cursor stops at the closing quote, escapes skipped, or reports none. |
| `SampleText.ScanLabel` | src/inference/probe.rs:840-912 | One turn of the cursor loop takes one label, or rejects it for syntax, repetition or number. |
| `SampleText.ScanLabels` | src/inference/probe.rs:833-916 | The cursor loop takes the labels one after another, errors included. |
| `SampleText.ParseHistogramSampleKey` | src/inference/probe.rs:823-919 | A key yields its series key and bound, or the error of the first rule it breaks. |
| `SampleText.CanonicalHistogramSeriesKey` | src/inference/probe.rs:934-946 | Testing the limit after every label is testing the whole key. |
| `SampleRoundTrip.LabelsReadBack` | src/inference/probe.rs:833-916 | Printed labels are told apart again, whatever quotes, braces and commas their values hold. |
| `SampleRoundTrip.KeyReadBack` | src/inference/probe.rs:823-919 | A printed key in the limits is read back as the series key of its labels and its bound, labels in any order, trailing comma or not. |
| `SampleRoundTrip.LineReadBack` | src/inference/probe.rs:667-696 | A printed line splits into its key and value, also with a timestamp after the value. |
| `SampleRoundTrip.EncodeInjective` | src/inference/probe.rs:934-946 | The length-prefixed encoding of labels is injective. |
| `SampleRoundTrip.SameKeyIffSameLabels` | src/inference/probe.rs:934-946 | Two samples have the same series key iff they have the same set of labels. |
| `SampleRoundTrip.ReorderedKeyReadsTheSame` | src/inference/probe.rs:823-946 | Label order and a trailing comma make no difference to what is read. |
| `SampleRoundTrip.AcceptedKeyIsPrinted` | src/inference/probe.rs:823-919 | Whatever key is accepted is a printed key of at most 32 labels with distinct names, a bound among them, and their series key and that bound are returned. |
| `SampleRoundTrip.AcceptedKeysSameIff` | src/inference/probe.rs:823-946 | Two accepted keys have the same series key iff they carry the same labels besides the bound. |
| `Families.DiscriminatorsInjective` | src/inference/probe.rs:65-136 | The one-character tags of runtime, prefix and schema tell them apart. |
| `Families.StoredKeyIdentity` | src/inference/probe.rs:185-190 | Two samples share a stored series iff runtime, prefix, schema and label set are equal. |
| `Families.AcceptedSamplesShareIff` | src/inference/probe.rs:174-190 | So any two accepted samples share a stored series iff runtime, prefix, schema and labels besides the bound are equal. |
| `Collector.HistogramAccumulator.Observe` | src/inference/probe.rs:154-215 | One sample steps the table, fail-closed, and `true` is returned only when a resource limit rejected it. |
| `Collector.HistogramAccumulator.Invalidate` | src/inference/probe.rs:217-219 | An invalidated accumulator is closed for good. |
| `Collector.HistogramAccumulator.Finish` | src/inference/probe.rs:221-231 | What is handed over is the snapshot of the open table, or the empty histogram. |
| `Collector.StepsCommute` | src/inference/probe.rs:152-215 | Two samples lead to the same table in either order, failures included. |
| `Collector.Place` | src/inference/probe.rs:192-214 | A sample is entered unless its bound is taken or a series or bucket limit is reached. |
| `Collector.InKeyOrder` | src/inference/probe.rs:225-230 | The map is handed over in key order. |
| `Collector.FinishSeries` | src/inference/probe.rs:225-230 | The finished snapshot does not depend on the order buckets arrived in. |
| `TableAccount.TableAccounts` | src/inference/probe.rs:152-219 | The table is open iff the samples are admissible (one schema, no repeated bound, within the limits, no bad value), and then holds each of them and nothing else. |
| `TableAccount.ScanAccounts` | src/inference/probe.rs:507-570 | Over a complete scan the same holds for the histogram of each kind and the samples of that kind. |
| `Normalize.GaugesCommute` | src/inference/probe.rs:980-1024 | Sums and maxima of gauges are the same whichever of two samples comes first. |
| `Normalize.CountersCommute` | src/inference/probe.rs:1026-1120 | So are all eleven counters. |
| `ScanReadings.ReadingsAddUp` | src/inference/probe.rs:980-1120 | After a scan two gauges and eleven counters are what they were plus everything the body holds for them, and are not there without any. |
| `ScanReadings.CacheUsageIsLargest` | src/inference/probe.rs:1001-1022 | After a scan the cache gauge is the largest share in percent that it held or the body holds, ratios scaled. |
| `ScanReadings.CutShortIff` | src/inference/probe.rs:544-560 | A scan is cut short iff its counting lines, with the samples there were, outnumber the one budget, or name families of more bytes than the other. |
| `ScanReadings.PrintedLineIs` | src/inference/probe.rs:516-543 | A printed line of a known runtime counts with its family and value when the value is finite; else it spoils the histogram its family belongs to, or is skipped. |
| `ScanReadings.BucketLineFeeds` | src/inference/probe.rs:152-215 | A printed bucket line feeds its histogram, and no other, the count at its bound in the series of its other labels, or spoils it when the count is negative. |
| `ScanReadings.UnreadableCloses` | src/inference/probe.rs:532-543 | A histogram value that cannot be read, wherever it stands in a body, closes its histogram. |
| `ScanReadings.HistogramsAreFed` | src/inference/probe.rs:698-821 | A bucket family with any of the prefixes belongs to the histogram its name says: no prefix shadows another. |
| `ScanReadings.LatencyKinds` | src/inference/probe.rs:766-821 | The bucket families of request latency, first token, output token and queue time belong to the histograms of these. |
| `ScanReadings.LatencySumsAreFed` | src/inference/probe.rs:1074-1116 | The sum families published beside those histograms feed the sum of the same latency. |
| `ScanReadings.LatencyCountsAreFed` | src/inference/probe.rs:1074-1116 | And the count families its count. |
| `ScanReadings.RequestsAreFed` | src/inference/probe.rs:980-1048 | The usual names of running, waiting, completed and failed requests feed these. |
| `ScanReadings.TokensAreFed` | src/inference/probe.rs:1051-1070 | So do those of prompt and generated tokens. |
| `ScanReadings.RuntimesAgree` | src/inference/probe.rs:948-969 | The runtime a family counts for is the one its histogram is kept under. |
| `Probe.HistogramCollector.Observe` | src/inference/probe.rs:251-259 | A sample reaches the accumulator of its kind and no other. |
| `Probe.HistogramCollector.Invalidate` | src/inference/probe.rs:261-263 | Invalidation closes the accumulator of one kind and no other. |
| `Probe.HistogramCollector.Finish` | src/inference/probe.rs:265-272 | All four histograms are finished from their own tables. |
| `Probe.Endpoint.AddRuntime` | src/inference/probe.rs:971-978 | A runtime name is added once. |
| `Probe.Endpoint.Normalize` | src/inference/probe.rs:980-1024 | The chain of tests enters a value into exactly the gauges and counters its family names. |
| `Probe.Endpoint.NormalizeCounters` | src/inference/probe.rs:1026-1116 | The same for the counters. |
| `Probe.Endpoint.TakeSample` | src/inference/probe.rs:561-568 | A counted sample enters the readings and, when recognised, one histogram. |
| `Probe.Endpoint.TakeLine` | src/inference/probe.rs:516-569 | A line is skipped, invalidates a histogram, is counted, or overruns a budget and leaves the readings alone. |
| `Probe.Endpoint.ScanLines` | src/inference/probe.rs:513-569 | The loop reads all lines or stops at the first that overruns a budget. |
| `Probe.Endpoint.ParseMetricsBounded` | src/inference/probe.rs:507-584 | A complete scan leaves readings and histograms of all lines; one cut short leaves no histogram and the readings of the lines before the cut; the truncation flag is raised iff it was cut short or a limit of a histogram turned a sample away. |
| `Probe.LinesCommute` | src/inference/probe.rs:513-569 | The effects of any two lines commute. |
| `Probe.LineOrderDoesNotMatter` | src/inference/probe.rs:507-584 | For every permutation of the lines the scan is cut or not alike, the histograms are equal, closed or open, and so are the readings of a complete scan. |
| `Attempts.RecordAcceptedIff` | src/operations/saturation.rs:1473-1557 | The validator accepts the record of every possible exchange except a transport failure that still carries an HTTP status. |
| `Attempts.InterruptedBodyIsRejected` | src/inference/openai.rs:415-426 | That exception occurs: a connection that drops while a body with status 200 is read. |
| `Attempts.AcceptedIsRecord` | src/operations/saturation.rs:1473-1599 | Conversely every accepted attempt is the record of a possible exchange up to the value of its token rate. |
| `Attempts.MeasuredIsRecord` | src/operations/saturation.rs:1473-1599 | With its rate as measured it is a record outright. |
| `Attempts.RecordTells` | src/inference/openai.rs:185-308 | What a record tells of its exchange: its times, its tokens in range, success iff visible output met the expectation, the failure stage, and a token rate that times the seconds after the first token gives the tokens after the first. |
| `Attempts.SumChunk` | src/operations/saturation.rs:1609-1618 | The fold over one worker's attempts sums their conservative nanoseconds or fails. |
| `Attempts.ValidateWorkerDurationLowerBound` | src/operations/saturation.rs:1601-1625 | The check passes iff every full chunk of a worker's width has times that sum to at most the stage duration. |
| `Admission.AdmittedIff` | src/operations/saturation.rs:283-335 | Options are admitted iff they are in range and within all budgets in plain arithmetic; no checked operation overflows before its limit is met. |
| `Admission.MemoryIsExact` | src/operations/saturation.rs:457-496 | Within the other limits no step of the memory estimate overflows. |
| `Admission.DefaultsAreAdmitted` | src/operations/saturation.rs:107-127 | With short texts the default settings are admitted for any server and model, and plan 22 attempts. |
| `Admission.AdmittedPlanIsValid` | src/operations/saturation.rs:1181-1246 | The plan an admitted run records passes the saved-plan check. |
| `Admission.AdmittedPolicyIsValid` | src/operations/saturation.rs:1248-1278 | The recorded policy passes the saved-policy check. |
| `Admission.PlanRecordedAsIff` | src/operations/saturation.rs:457-496 | A saved plan that passes is the plan of some admitted options with a given base URL, model and workload iff its least working set under their lengths is within the memory limit. |
| `Admission.PlanRecordedIff` | src/operations/saturation.rs:1181-1246 | And of any admitted options iff that holds for names of one byte. |
| `Admission.UnrecordedPlanPasses` | src/operations/saturation.rs:457-496 | There is a plan that passes although no run can record it. |
| `Admission.LongModelUnrecorded` | src/operations/saturation.rs:457-496 | There is a plan that some options record, but none with a model name of 64 KiB. |
| `Admission.PhaseCountsFit` | src/operations/saturation.rs:210-212 | The checked multiplications of the run never fail. |
| `Target.ReportedTargetValidIff` | src/operations/saturation.rs:1158-1179 | The target a client reports passes the saved-target check iff its origin is at most 64 KiB long, given that origins read back. |
| `Target.ConnectsIff` | src/inference/openai.rs:108-174 | A client can be built iff the base URL is a web URL with a host and without credentials, the server is local, behind HTTPS or explicitly allowed, and limit, key and library permit it; it reports the origin of that URL. |
| `Target.SwitchOnlyAdmits` | src/inference/openai.rs:741-750 | Where a client can be built, allowing plain HTTP changes nothing about where it goes. |
| `Target.SavedTargetConnects` | src/operations/saturation.rs:1158-1179 | A saved target that passes is the origin of a client with that text for a base URL. |
| `StageSummary.FromAttempts` | src/domain/benchmark.rs:204-212 | The failure counts count each stage. |
| `StageSummary.CountsAddUp` | src/operations/saturation.rs:1641-1648 | The failure counts of a phase add up to its failures. |
| `StageSummary.TokenTotalsAreExact` | src/operations/saturation.rs:587-604 | In a stage of an admitted run token sums are true sums; the overflow fallback is never taken. |
| `StageSummary.LatencyGatePassesIff` | src/operations/saturation.rs:747-782 | A p95 gate passes iff some attempt succeeded, enough were measured, and at least ceil(95 n / 100) are at or below the threshold. |
| `StageVerdict.StagePassesIff` | src/operations/saturation.rs:550-782 | All gates of a stage pass iff its attempts meet the policy: a success, few enough failures, latency counts, request rate, and goodput with every success reporting its tokens. |
| `StageVerdict.RatesGiveBackTotals` | src/operations/saturation.rs:562-615 | The rates of a stage times its duration give back its requests, successes and tokens, and goodput is there iff every success reports the tokens it counts. |
| `StageVerdict.CountsAre` | src/domain/benchmark.rs:204-212 | The failure counts of a phase are the numbers of its attempts that failed at each point. |
| `StageVerdict.SummaryCounts` | src/operations/saturation.rs:550-604 | Attempts, successes, failures and token reports of a summary are the numbers of such attempts. |
| `StageVerdict.MeasuredAre` | src/operations/saturation.rs:623-646 | The measurements behind a distribution are those the successful attempts carry: as many are at most a threshold as such attempts have one. |
| `StageVerdict.TimesAre` | src/operations/saturation.rs:623-646 | Each distribution of a stage describes its own measurement. |
| `StageVerdict.TokenSumsAre` | src/operations/saturation.rs:587-604 | Token totals add up over the attempts, each success with its own count when that is in range. |
| `StageVerdict.StageStopsIff` | src/operations/saturation.rs:805-816 | A stage stops the run for want of a success iff no attempt succeeded, and for its errors iff some did and the failed ones, in percent, reach the limit. |
| `StageVerdict.WarmupStopsIff` | src/operations/saturation.rs:792-803 | And so does a warmup. |
| `StageVerdict.StageFailsIff` | src/operations/saturation.rs:659-782 | Some gate of a stage fails iff its attempts violate the policy, and some gate does not decide iff they leave open what it asks for. |
| `StageVerdict.GatesShow` | src/operations/saturation.rs:659-790 | There is a gate of a kind iff its setting asks for it; it observes what its kind says, and passes, if it decides, iff that stands to its threshold as its operator says. |
| `Ladder.ExecuteSchedule` | src/operations/saturation.rs:228-276 | The reached phases are a prefix of the plan, only the last can meet an abort rule, the reason is that phase's, and every row is the row of its batch; `LadderStops.RunClimbs` says the rules in terms of the attempts. |
| `LadderStops.RunClimbs` | src/operations/saturation.rs:228-276 | A phase of the run is followed by another iff some attempt of its batch succeeded and the failed ones are below the limit; a warmup is followed by its stage and a stage by the next warmup; and the reason of the run is that of its last batch. |
| `LadderStops.AdmittedRunClimbs` | src/operations/saturation.rs:210-276 | The same of an admitted run with its own abort limit. |
| `LadderStops.AcceptedReportClimbs` | src/operations/saturation.rs:1280-1336 | The phases an accepted report tells of follow one another that way, and its reason is that of the last. |
| `Ladder.LadderIsUnique` | src/operations/saturation.rs:228-276 | The batches determine the run: which phases are reached, every row and the reason for stopping. |
| `Assessment.Assess` | src/operations/saturation.rs:864-969 | One pass yields the first signal and its concurrency, or whether evidence was missing. |
| `Assessment.FirstSignal` | src/operations/saturation.rs:919-941 | The reported signal is the first one and no earlier step gave any. |
| `Assessment.LookAt` | src/operations/saturation.rs:912-944 | The order of the tests decides between signal, gap and neither. |
| `Assessment.HighestAccepted` | src/operations/saturation.rs:971-983 | The result is the largest concurrency among stages whose gates all passed. |
| `Assessment.VerifyPassesIff` | src/operations/saturation.rs:818-862 | Among stages of distinct concurrency a requested one passes iff it ran and each of its gates passed. |
| `LadderVerdict.HighestAcceptedIs` | src/operations/saturation.rs:971-983 | The highest accepted concurrency is that of the last reached stage whose attempts meet the policy; there is none iff no stage's attempts do. |
| `LadderVerdict.VerifyPassesIffMeets` | src/operations/saturation.rs:818-862 | A requested concurrency passes iff its stage was reached and the attempts there meet the policy. |
| `LadderVerdict.VerifyFailsIff` | src/operations/saturation.rs:818-862 | It fails iff its stage was reached and the attempts there violate the policy; it is not verifiable, and for which reason, iff it was not reached or they leave the policy open without violating it. |
| `LadderVerdict.RunVerdicts` | src/operations/saturation.rs:166-167 | Both verdicts of an admitted run are true of the requests it made. |
| `LadderVerdict.AcceptedReportVerdicts` | src/operations/saturation.rs:1101-1113 | Both verdicts of an accepted report are true of the attempts it retains. |
| `LadderVerdict.PlateauIff` | src/operations/saturation.rs:999-1015 | A step is a plateau iff the relative gain in throughput is at most the threshold, in percent, of the relative gain in concurrency. |
| `LadderVerdict.ScalingEfficiencyIs` | src/operations/saturation.rs:985-997 | Scaling efficiency is the throughput per unit of concurrency in percent of the baseline's. |
| `SignalVerdict.EvidenceIs` | src/operations/saturation.rs:885-911 | Every figure of a step, times what it is relative to, gives back the difference it measures, of successes over durations or of 95th percentiles. |
| `SignalVerdict.StepMeans` | src/operations/saturation.rs:912-944 | A step gives the error signal iff it is a plateau with too many failures, the latency signal iff it is one without them whose 95th percentile rose by the limit, and is a gap iff it is undecided, all in terms of the attempts of both stages. |
| `SignalVerdict.AcceptedReportSignal` | src/operations/saturation.rs:864-969 | What an accepted report says of saturation is true of the attempts it retains: each figure, the first signal and its concurrency, and whether evidence was missing. |
| `SignalVerdict.RunSignal` | src/operations/saturation.rs:864-969 | The same of an admitted run, whatever becomes of its report. |
| `SavedReport.ValidateAttempts` | src/operations/saturation.rs:1380-1390 | Every attempt stands at its own index and is valid. |
| `SavedReport.ValidateSavedStage` | src/operations/saturation.rs:1361-1406 | A stage is accepted iff its shape, worker times, attempts, summary and gates are what its attempts re-derive. |
| `SavedReport.ValidateSavedSchedule` | src/operations/saturation.rs:1280-1336 | The loop over the plan accepts exactly the ladders whose rows their evidence re-derives. |
| `SavedReport.SumPhases` | src/operations/saturation.rs:1085-1098 | The phase durations are added up over warmups and stages. |
| `SavedReport.ValidateReportSemantics` | src/operations/saturation.rs:1064-1115 | The whole check accepts exactly the reports of the right version, workload identity, canonical target and nonclaims whose plan, policy, times, schedule, assessment and verdict are consistent. |
| `ProducerAccepted.ProtocolRunIsExecutorBatch` | src/operations/workload.rs:97-187 | A finished protocol run over the requests of a phase is a batch with results in order in which each worker's response times fit the duration. |
| `ProducerAccepted.ExecutorBatchIffRun` | src/operations/workload.rs:97-187 | And conversely: a batch is such a batch iff some finished protocol run over these requests ends with it. |
| `ProducerAccepted.ProtocolRunFitsWorkers` | src/operations/saturation.rs:1601-1625 | A finished protocol run always passes the lower bound on the stage duration: the validator's chunks are the ranges of the workers, with no remainder. |
| `ProducerAccepted.BatchWorkersFit` | src/operations/saturation.rs:1608-1624 | For any batch of the executor every chunk sums to at most the duration. |
| `ProducerAccepted.WarmupRowAcceptedIff` | src/operations/saturation.rs:1338-1359 | A produced warmup row is accepted iff the phase lasted a nanosecond. |
| `ProducerAccepted.StageRowAcceptedIff` | src/operations/saturation.rs:1361-1406 | A produced stage row is accepted iff the stage lasted a nanosecond and no attempt is an interrupted body. |
| `ProducerAccepted.Run` | src/operations/saturation.rs:135-202 | A run assembles the report of its ladder with the identity of its options and the origin of its client, or none when options are refused, the client cannot be built or the executor failed. |
| `ProducerAccepted.ReportAcceptedIff` | src/operations/saturation.rs:1064-1115 | The report of an admitted run is accepted iff every reached phase lasted a nanosecond, no retained transport failure carries an HTTP status, and the origin is at most 64 KiB long. |
| `RunBudget.AttemptsAreAsPlanned` | src/operations/saturation.rs:288-301 | A complete run makes exactly the planned attempts, at most 10,000; an aborted one no more. |
| `RunBudget.PhaseIsTimely` | src/operations/saturation.rs:323-332 | A batch that a protocol run ended with, requests within the timeout and at most a gap around each, lasted at most the requests of one worker times timeout and gap, and one gap. |
| `RunBudget.PhasesWithinHalfAnHour` | src/operations/saturation.rs:323-332 | The phases of an admitted run over such batches take at most 30 minutes and the gaps: one for each request of a worker and one for each end of a phase. |
| `ReportEvidence.AcceptedStageIsRow` | src/operations/saturation.rs:1391-1404 | An accepted stage is the row of the results it retains. |
| `ReportEvidence.EvidenceDeterminesReport` | src/operations/saturation.rs:1064-1115 | Two accepted reports with the same identity, settings and retained evidence are equal: statuses, reasons, summaries, gates, assessment and verdict leave no choice. |
| `WarmupReplay.WarmupReplayableIff` | src/operations/saturation.rs:1338-1359 | An accepted warmup row is the row of some batch iff it counts expectation failures only where an expectation is configured. |
| `WarmupReplay.UnproducedWarmupPasses` | src/operations/saturation.rs:1346-1357 | There is a row that passes although, without an expectation, no batch gives it. |
| `ReportRange.StageIsExecuted` | src/operations/saturation.rs:1361-1406 | The results an accepted stage retains, with measured attempts, are a batch the executor can return. |
| `ReportRange.AcceptedIsRun` | src/operations/saturation.rs:1064-1115 | An accepted report told as a run tells is the report of a run of admitted options with its model and workload against its server. |
| `ReportRange.OwnOriginAffordable` | src/operations/saturation.rs:457-496 | The recorded origin serves as the base URL of such a run when there is memory for it. |
| `ReportRange.RunIsTold` | src/operations/saturation.rs:135-202 | Every report of a run is told that way. |
| `ReportRange.AcceptedAndToldIff` | src/operations/saturation.rs:1064-1115 | Accepted and told as a run tells iff report of an admitted run whose client could be built, whose phases lasted, whose bodies were not interrupted and whose origin is not too long: producer and validator meet exactly here. |
| `RunExists.LadderExists` | src/operations/saturation.rs:228-276 | Batches for every phase always give a ladder. |
| `RunExists.AdmittedRunsReport` | src/operations/saturation.rs:135-202 | Whatever options are admitted, if their client can be built, for an origin that is not too long, some run of them leaves a report and the validator accepts it. |
| `SaturationCompare.CompareStages` | src/operations/saturation_compare.rs:56-65 | Stages are paired position by position up to the shorter list. |
| `SaturationCompare.CompatibleIff` | src/operations/saturation_compare.rs:135-226 | The checks pass iff both reports are intact and complete, tell of the same test and are given in order. |
| `SaturationCompare.SamePlan` | src/operations/saturation_compare.rs:193-220 | The fields of a valid plan that are not compared follow from those that are. |
| `SaturationCompare.CompleteReportHasAllStages` | src/operations/saturation.rs:1325-1333 | A complete, intact report has one stage for every planned concurrency, in order. |
| `SaturationCompare.NoStageIsSkipped` | src/operations/saturation_compare.rs:40-84 | Compatible reports are compared at every planned concurrency, each stage with the one of equal concurrency. |
| `SaturationCompare.OneGateLoosened` | src/operations/saturation_compare.rs:537-607 | A gate judged more leniently changes only towards a pass. |
| `SaturationCompare.FloorMonotone` | src/operations/saturation_compare.rs:537-607 | A lower floor is easier to reach although its relative tolerance shrinks with it. |
| `SaturationCompare.LooserPolicyKeepsPass` | src/operations/saturation_compare.rs:263-329 | Loosening thresholds or dropping gates keeps every pass and brings about no regression. |
| `StageComparison.ErrorsSay` | src/operations/saturation_compare.rs:510-535 | The error gate is evaluable iff both sides made twenty attempts, and passes iff the candidate's share of failures is at most the baseline's and the points, give or take a billionth. |
| `StageComparison.RatesSay` | src/operations/saturation_compare.rs:437-465 | The rate gate is evaluable iff both made twenty attempts and the baseline had a success, and passes iff successes over duration are at least the floor times the baseline's. |
| `StageComparison.GoodputSays` | src/operations/saturation_compare.rs:467-508 | The goodput gate is evaluable iff both have twenty successes that all report their tokens, and passes iff tokens over duration are at least the floor times the baseline's. |
| `StageComparison.LatencySays` | src/operations/saturation_compare.rs:396-434 | A latency gate is evaluable iff both have twenty measurements and the baseline's 95th percentile is not zero, and passes iff the candidate's is above it by at most the percentage. |
| `ComparisonVerdict.ComparisonPassesIff` | src/operations/saturation_compare.rs:609-636 | A comparison passes iff the reports are of the same test and at every concurrency both sides have at least twenty attempts that meet the policy and the candidate keeps up in every configured comparison, told of the attempts and durations of both stages. |
| `ComparisonVerdict.ComparisonRegressesIff` | src/operations/saturation_compare.rs:609-636 | It is a regression iff the reports are of the same test and at some concurrency the candidate falls behind in a configured comparison that can be made, or the baseline meets the policy and the candidate, with twenty attempts, violates it. |
| `ComparisonVerdict.GatesShow` | src/operations/saturation_compare.rs:263-329 | There is a gate of a kind, with its threshold, iff that is set; one that observes something passes iff that is within the threshold, give or take a billionth. |
| `ComparisonVerdict.OwnRegressionIff` | src/operations/saturation_compare.rs:40-84 | A report compared with itself is a regression iff it is intact and complete and some stage allows a ratio to be taken whose floor is above one by more than the tolerance. |
| `ComparisonVerdict.NoRegressionAgainstItself` | src/operations/saturation_compare.rs:40-84 | So with no ratio floor above one, tolerance included, it never is. |
| `Trend.KeyInjective` | src/analysis/trend.rs:42-43 | Distinct (uuid, pid) pairs have distinct keys whatever a uuid holds. |
| `Trend.StoredEntries` | src/analysis/trend.rs:59-65 | A seen key is stored with the current instant, any other as it was. |
| `Trend.KeptKeysAreCurrent` | src/analysis/trend.rs:68-69 | After a cycle the stored keys are exactly those of that cycle. |
| `Trend.TrackedIffCurrent` | src/analysis/trend.rs:37-70 | A pair is tracked iff some current usage is of that pair. |
| `Trend.GrowthSincePreviousCycle` | src/analysis/trend.rs:44-65 | Growth is judged against the previous cycle, and a repeated pair gives no second finding. |
| `Trend.CycleByEndpoint` | src/analysis/trend.rs:73-103 | Rates come from the sample of the last cycle the endpoint was read in, and the sample is replaced only when it is read now. |
| `Trend.TableHolds` | src/analysis/trend.rs:73-103 | Over any run of cycles the table holds, for an endpoint listed in each, what that endpoint's own cycles say. |
| `Trend.HeldIsLastReading` | src/analysis/trend.rs:82-100 | The held sample is that of the last cycle with a reading, and there is none iff there was no reading. |
| `Trend.RatesAddUp` | src/analysis/trend.rs:183-203 | The rates an endpoint is given times their intervals add up to last counter minus first, across unreachable cycles. |
| `Trend.RunRatesAddUp` | src/analysis/trend.rs:73-103 | So do the rates the tracker writes over any run with advancing instants and distinct keys, for every endpoint listed throughout whose counter is there at each reading and never falls. |
| `RateFigures.FiguresAre` | src/analysis/trend.rs:114-205 | Five rates, three means and four intervals between two readings, each multiplied back: a rate is there iff both counters are and the later is not smaller, a mean iff its count grew. |
| `RateFigures.SecondCycleRates` | src/analysis/trend.rs:73-103 | Over two cycles an endpoint read in both, with time between them, is given these figures, and one that is not read, or not listed before, keeps what it came with. |
| `RateFigures.ObserveTwice` | src/analysis/trend.rs:73-103 | Two calls of the tracker do that, whatever it held before. |
| `Trend.Tracker.Look` | src/analysis/trend.rs:42-65 | One usage is judged against and replaces the stored sample of its pair; what counts as growth is told by `ProcessGrowth.ObserveTwice`. |
| `Trend.Tracker.Observe` | src/analysis/trend.rs:37-70 | The whole cycle leaves exactly the samples and findings of its usages; over two cycles `ProcessGrowth.ObserveTwice` says which findings these are. |
| `ProcessGrowth.SecondCycleTells` | src/analysis/trend.rs:37-70 | Of two cycles that list a process once each, the second reports exactly the processes that the first listed, at least a second before, and that now use at least the threshold more, each once and with the difference; what it leaves is the memory of its own processes. |
| `ProcessGrowth.ObserveTwice` | src/analysis/trend.rs:37-110 | Two calls of the tracker do that, with the configured threshold or 256, whatever it held before. |
| `Trend.Tracker.ObserveEndpoint` | src/analysis/trend.rs:82-100 | One endpoint is rated against and, when readable, replaces its stored sample. |
| `Trend.Tracker.ObserveEndpoints` | src/analysis/trend.rs:73-103 | Every endpoint in the list gets its rates in place, and samples of endpoints not listed are dropped. |
| `HistoryReader.LinesConcatenate` | src/operations/history.rs:673-698 | The lines of a text concatenate to it. |
| `HistoryReader.LineReader.TakePart` | src/operations/history.rs:679-697 | One turn takes what the buffer holds of the line, unless that exceeds the limit. |
| `HistoryReader.LineReader.ReadBoundedLine` | src/operations/history.rs:673-698 | Whatever the chunks, the first line is read, it fails iff the line exceeds the limit, and the buffer never does. |
| `HistoryReader.ReadRecords` | src/operations/history.rs:187-198 | Reading a file line by line yields its records, or ends at the first line that is too long or does not hold a passing record of the version of the others. |
| `HistoryReader.Analyze` | src/operations/history.rs:172-203 | A file is refused for such a line, with the limit of 64 MiB, or for holding no record. |
| `HistoryReader.ReadThroughIs` | src/operations/history.rs:187-198 | It yields the lines that hold records, in order, iff no line exceeds the limit and all records pass with one supported schema version, however the text was chunked. |
| `HistoryReader.BoundedWriter.Write` | src/operations/history.rs:102-112 | A write fits the limit and is kept whole, or changes nothing but the flag. |
| `HistoryReader.Append` | src/operations/history.rs:58-83 | A record with its newline is appended whole iff it fits. |
| `HistoryReader.AppendedRecordsReadBack` | src/operations/history.rs:58-83 | Appended newline-free records that are not blank and pass with one version come back in order, none rejected for its size. |
| `HistoryReader.ValidateHistogram` | src/operations/history.rs:602-647 | The separately written check accepts the empty list or exactly the cumulative ones. |
| `HistoryReader.ValidatorsAgree` | src/operations/history.rs:602-647 | On non-empty lists it agrees with the live validator. |
| `HistoryReader.FinishedHistogramsAreStorable` | src/operations/history.rs:602-647 | Whatever an accumulator finishes with can be stored. |
| `HistoryReader.DerivedRatesAreStorable` | src/operations/history.rs:569-591 | Rates the tracker derives always pass the history check. |

## Left out

- HTTP, TLS, proxies, the parsing of URLs and the path of the request URL, file opening and permissions, signals and clocks: a request is whatever reply comes back, a file is its bytes.
- Command line, profiles, configuration, text rendering and error messages.
- The bounded deserializers; reports and histories are given as values.
- `src/planning`, `src/telemetry`, `src/analysis/health.rs`, `src/operations/compare.rs`, `src/operations/doctor.rs` and `src/operations/runtime.rs`: thresholds and set comparisons that would only add easy members.
- `src/operations/rollout.rs` and the canary's own gates: a weaker repeat of the saturation validator.
- Rounding of floating-point numbers. In floating point the mean of equal samples can fall outside their minimum and maximum.
- The encoding of the request, which the code also holds to its share of the memory estimate.
- A worker thread that unwinds outside an invocation is part of the merging, not of the protocol; `catch_unwind` leaves no place for it there.
- Read errors of the history file, the checks of the fields of one history record other than histograms and rates, and the summary over a history.
- The order of the runtime names of an endpoint and its retained metric names.
- Probe.LineOrderDoesNotMatter: does not speak of the truncation flag, which for a histogram that is closed for more than one reason depends on which reason came first.
- ReportRange.AcceptedAndToldIff: takes any possible exchange for a request, also an answer that a very small response limit would have refused; how short an answer can be is up to the JSON library.
- Attempts.AcceptedIsRecord: says nothing about the value of a token rate, because the validator checks only that it is there or not and positive.
- RunBudget.PhasesWithinHalfAnHour: takes the time a worker loses between its requests as a parameter, because nothing in the code bounds it.
