/** Which accepted warmup rows can come from requests: a warmup retains only counts, and every
    accepted combination of counts is one of some exchanges, expectation failures only where an
    expectation is configured. */
module WarmupReplay {
  import opened Common
  import opened Attempts
  import opened Admission
  import opened StageSummary
  import opened Ladder
  import opened SavedReport
  import opened ProducerAccepted
  import Workload

  /** How an attempt ended: `None` is success. */
  type Kind = Option<FailureStage>

  // ---- An exchange of every kind ----

  function Answer(ok: bool, visible: bool, stream: bool, configured: bool): Exchange {
    Answered(200, 0, 0, visible, if configured then Some(ok) else None, None, None, if stream && visible then Some(0) else None)
  }

  function Specimen(kind: Kind, stream: bool, configured: bool): Exchange {
    match kind
    case None => Answer(true, true, stream, configured)
    case Some(Transport) => SendFailed(0)
    case Some(Http) => Rejected(500, 0, 0)
    case Some(Protocol) => Unreadable(200, 0, 0, Protocol)
    case Some(EmptyOutput) => Answer(true, false, stream, configured)
    case Some(Expectation) => Answer(false, true, stream, configured)
  }

  lemma {:induction false} SpecimenShows(kind: Kind, index: nat, stream: bool, configured: bool, maxTokens: nat)
    requires kind == Some(Expectation) ==> configured
    ensures Possible(Specimen(kind, stream, configured), stream, configured) && Specimen(kind, stream, configured).finish == 0
    ensures var a := Record(index, Specimen(kind, stream, configured), maxTokens);
      a.failureStage == kind && (a.success <==> kind.None?)
  {
  }

  // ---- Counting kinds ----

  function Count(kinds: seq<Kind>, kind: Kind): nat {
    if kinds == [] then 0 else Count(kinds[..|kinds| - 1], kind) + if kinds[|kinds| - 1] == kind then 1 else 0
  }

  lemma {:induction false} CountAppend(a: seq<Kind>, b: seq<Kind>, kind: Kind)
    ensures Count(a + b, kind) == Count(a, kind) + Count(b, kind)
  {
    if b == [] {
      assert a + b == a;
    } else {
      assert (a + b)[..|a + b| - 1] == a + b[..|b| - 1];
      CountAppend(a, b[..|b| - 1], kind);
    }
  }

  lemma {:induction false} CountHas(kinds: seq<Kind>, i: nat)
    requires i < |kinds|
    ensures Count(kinds, kinds[i]) >= 1
  {
    if i < |kinds| - 1 { CountHas(kinds[..|kinds| - 1], i); }
  }

  function Repeat(kind: Kind, n: nat): seq<Kind> { if n == 0 then [] else Repeat(kind, n - 1) + [kind] }

  lemma {:induction false} RepeatCounted(kind: Kind, n: nat, other: Kind)
    ensures |Repeat(kind, n)| == n && Count(Repeat(kind, n), other) == if other == kind then n else 0
  {
    if n > 0 {
      RepeatCounted(kind, n - 1, other);
      assert Repeat(kind, n)[..n - 1] == Repeat(kind, n - 1);
    }
  }

  function Failures(c: Counts): seq<Kind> {
    Repeat(Some(Transport), c.transport) + Repeat(Some(Http), c.http) + Repeat(Some(Protocol), c.protocol)
    + Repeat(Some(EmptyOutput), c.emptyOutput) + Repeat(Some(Expectation), c.expectation)
  }

  function KindsOf(succeeded: nat, c: Counts): seq<Kind> { Repeat(None, succeeded) + Failures(c) }

  function CountIn(c: Counts, stage: FailureStage): nat {
    match stage
    case Transport => c.transport
    case Http => c.http
    case Protocol => c.protocol
    case EmptyOutput => c.emptyOutput
    case Expectation => c.expectation
  }

  lemma {:induction false} CountFive(a: seq<Kind>, b: seq<Kind>, c: seq<Kind>, d: seq<Kind>, e: seq<Kind>, kind: Kind)
    ensures Count(a + b + c + d + e, kind) == Count(a, kind) + Count(b, kind) + Count(c, kind) + Count(d, kind) + Count(e, kind)
  {
    CountAppend(a, b, kind);
    CountAppend(a + b, c, kind);
    CountAppend(a + b + c, d, kind);
    CountAppend(a + b + c + d, e, kind);
  }

  lemma {:induction false} FailuresCounted(c: Counts, kind: Kind)
    ensures |Failures(c)| == c.transport + c.http + c.protocol + c.emptyOutput + c.expectation
    ensures Count(Failures(c), kind) == match kind case None => 0 case Some(stage) => CountIn(c, stage)
  {
    var t, h, p := Repeat(Some(Transport), c.transport), Repeat(Some(Http), c.http), Repeat(Some(Protocol), c.protocol);
    var e, x := Repeat(Some(EmptyOutput), c.emptyOutput), Repeat(Some(Expectation), c.expectation);
    RepeatCounted(Some(Transport), c.transport, kind);
    RepeatCounted(Some(Http), c.http, kind);
    RepeatCounted(Some(Protocol), c.protocol, kind);
    RepeatCounted(Some(EmptyOutput), c.emptyOutput, kind);
    RepeatCounted(Some(Expectation), c.expectation, kind);
    CountFive(t, h, p, e, x, kind);
  }

  lemma {:induction false} KindsCounted(succeeded: nat, c: Counts, kind: Kind)
    ensures |KindsOf(succeeded, c)| == succeeded + c.transport + c.http + c.protocol + c.emptyOutput + c.expectation
    ensures Count(KindsOf(succeeded, c), kind) == match kind case None => succeeded case Some(stage) => CountIn(c, stage)
  {
    RepeatCounted(None, succeeded, kind);
    FailuresCounted(c, kind);
    CountAppend(Repeat(None, succeeded), Failures(c), kind);
  }

  // ---- Attempts of these kinds ----

  predicate Shows(attempts: seq<Attempt>, kinds: seq<Kind>) {
    |attempts| == |kinds| && forall i | 0 <= i < |kinds| :: attempts[i].failureStage == kinds[i] && (attempts[i].success <==> kinds[i].None?)
  }

  lemma {:induction false} AttemptsCounted(attempts: seq<Attempt>, kinds: seq<Kind>, stage: FailureStage)
    requires Shows(attempts, kinds)
    ensures Succeeded(attempts) == Count(kinds, None) && CountStage(attempts, stage) == Count(kinds, Some(stage))
  {
    if kinds != [] {
      var last := |kinds| - 1;
      AttemptsCounted(attempts[..last], kinds[..last], stage);
      assert attempts[last].failureStage == kinds[last] && (attempts[last].success <==> kinds[last].None?);
    }
  }

  lemma {:induction false} CountsShown(attempts: seq<Attempt>, succeeded: nat, c: Counts)
    requires Shows(attempts, KindsOf(succeeded, c)) && FailureTotal(c).Some?
    ensures Succeeded(attempts) == succeeded && CountsOf(attempts) == c
    ensures |attempts| == succeeded + FailureTotal(c).value
  {
    var kinds := KindsOf(succeeded, c);
    KindsCounted(succeeded, c, None);
    forall stage: FailureStage ensures CountStage(attempts, stage) == CountIn(c, stage) {
      AttemptsCounted(attempts, kinds, stage);
      KindsCounted(succeeded, c, Some(stage));
    }
    AttemptsCounted(attempts, kinds, Transport);
  }

  function Exchanges(kinds: seq<Kind>, o: Options): nat -> Exchange {
    (i: nat) => if i < |kinds| then Specimen(kinds[i], o.stream, o.expectation.Some?) else SendFailed(0)
  }

  /** A batch that a warmup row can be the summary of. */
  function BatchFor(w: Warmup, o: Options): Batch {
    var kinds := KindsOf(w.succeeded, w.failures);
    Workload.Batch(w.durationNs, seq(|kinds|, i requires 0 <= i < |kinds| =>
      Record(i, Specimen(kinds[i], o.stream, o.expectation.Some?), o.maxTokens)))
  }

  /** The kinds of an accepted row that the options allow. */
  predicate Allowed(w: Warmup, configured: bool) { w.failures.expectation > 0 ==> configured }

  lemma {:induction false} KindAllowed(w: Warmup, configured: bool, i: nat)
    requires Allowed(w, configured) && i < |KindsOf(w.succeeded, w.failures)|
    ensures KindsOf(w.succeeded, w.failures)[i] == Some(Expectation) ==> configured
  {
    CountHas(KindsOf(w.succeeded, w.failures), i);
    KindsCounted(w.succeeded, w.failures, Some(Expectation));
  }

  lemma {:induction false} BatchShows(w: Warmup, o: Options)
    requires Allowed(w, o.expectation.Some?)
    ensures Shows(BatchFor(w, o).results, KindsOf(w.succeeded, w.failures))
  {
    var kinds := KindsOf(w.succeeded, w.failures);
    forall i: nat | i < |kinds|
      ensures BatchFor(w, o).results[i].failureStage == kinds[i] && (BatchFor(w, o).results[i].success <==> kinds[i].None?)
    {
      KindAllowed(w, o.expectation.Some?, i);
      SpecimenShows(kinds[i], i, o.stream, o.expectation.Some?, o.maxTokens);
    }
  }

  /** An accepted row is the row of that batch. */
  lemma {:induction false} AcceptedWarmupIsRow(w: Warmup, concurrency: nat, perWorker: nat, o: Options, policy: Policy)
    requires ValidWarmup(w, concurrency, perWorker) && w.durationNs <= U64_MAX && Allowed(w, o.expectation.Some?)
    requires w.status == (if WarmupAbort(w, policy.abortErrorPercent).Some? then Aborted else Complete)
    ensures WarmupRow(BatchFor(w, o), concurrency, perWorker, policy) == w
    ensures |BatchFor(w, o).results| == concurrency * perWorker
  {
    BatchShows(w, o);
    CountsShown(BatchFor(w, o).results, w.succeeded, w.failures);
    RowFromCounts(w, BatchFor(w, o), concurrency, perWorker, policy);
  }

  lemma {:induction false} RowFromCounts(w: Warmup, batch: Batch, concurrency: nat, perWorker: nat, policy: Policy)
    requires ValidWarmup(w, concurrency, perWorker) && batch.duration == w.durationNs <= U64_MAX
    requires w.status == (if WarmupAbort(w, policy.abortErrorPercent).Some? then Aborted else Complete)
    requires Succeeded(batch.results) == w.succeeded && CountsOf(batch.results) == w.failures && |batch.results| == w.attempted
    ensures WarmupRow(batch, concurrency, perWorker, policy) == w
  {
    var row := SummarizeWarmup(batch.results, concurrency, concurrency * perWorker, batch.duration);
    assert row == w.(status := Complete);
  }

  lemma {:induction false} NoTime(x: nat -> Exchange, from: nat, till: nat)
    requires forall i: nat :: x(i).finish == 0
    ensures FinishSum(x, from, till) == 0
    decreases till
  {
    if from < till { NoTime(x, from, till - 1); }
  }

  /** And that batch is one the executor can return. */
  lemma {:induction false} WarmupBatchIsExecuted(w: Warmup, concurrency: nat, perWorker: nat, o: Options)
    requires w.durationNs <= U64_MAX && Allowed(w, o.expectation.Some?)
    requires |BatchFor(w, o).results| == concurrency * perWorker
    ensures FromExecutor(BatchFor(w, o), concurrency, perWorker, o)
  {
    var batch, kinds := BatchFor(w, o), KindsOf(w.succeeded, w.failures);
    var x := Exchanges(kinds, o);
    forall i: nat ensures x(i).finish == 0 {
      if i < |kinds| {
        KindAllowed(w, o.expectation.Some?, i);
        SpecimenShows(kinds[i], i, o.stream, o.expectation.Some?, o.maxTokens);
      }
    }
    forall i: nat | i < |batch.results| ensures RecordOf(batch.results[i], i, x, o) {
      KindAllowed(w, o.expectation.Some?, i);
      SpecimenShows(kinds[i], i, o.stream, o.expectation.Some?, o.maxTokens);
    }
    forall k: nat | k < concurrency ensures ShareFits(batch, x, k, perWorker) { NoTime(x, k * perWorker, (k + 1) * perWorker); }
    assert ExecutorBatch(batch, x, concurrency, perWorker, o);
  }

  // ---- And no others ----

  lemma {:induction false} StageCountHas(attempts: seq<Attempt>, stage: FailureStage) returns (i: nat)
    requires CountStage(attempts, stage) > 0
    ensures i < |attempts| && attempts[i].failureStage == Some(stage)
  {
    var last := |attempts| - 1;
    if attempts[last].failureStage == Some(stage) { i := last; } else { i := StageCountHas(attempts[..last], stage); }
  }

  lemma {:induction false} ExpectationNeedsOne(index: nat, x: Exchange, stream: bool, configured: bool, maxTokens: nat)
    requires Possible(x, stream, configured) && Record(index, x, maxTokens).failureStage == Some(Expectation)
    ensures configured
  {
  }

  /** A row the executor's batches can give counts expectation failures only where an expectation is
      configured. */
  lemma {:induction false} ExecutedIsAllowed(batch: Batch, concurrency: nat, perWorker: nat, o: Options, policy: Policy)
    requires FromExecutor(batch, concurrency, perWorker, o)
    ensures Allowed(WarmupRow(batch, concurrency, perWorker, policy), o.expectation.Some?)
  {
    var x: nat -> Exchange :| ExecutorBatch(batch, x, concurrency, perWorker, o);
    if CountStage(batch.results, Expectation) > 0 {
      var i := StageCountHas(batch.results, Expectation);
      assert RecordOf(batch.results[i], i, x, o);
      ExpectationNeedsOne(i, x(i), o.stream, o.expectation.Some?, o.maxTokens);
    }
  }

  /** An accepted warmup row is the row of some batch of the executor iff it counts expectation
      failures only where an expectation is configured. */
  lemma {:induction false} WarmupReplayableIff(w: Warmup, concurrency: nat, perWorker: nat, o: Options, policy: Policy)
    requires ValidWarmup(w, concurrency, perWorker) && w.durationNs <= U64_MAX
    requires w.status == (if WarmupAbort(w, policy.abortErrorPercent).Some? then Aborted else Complete)
    ensures (exists batch: Batch :: FromExecutor(batch, concurrency, perWorker, o) && WarmupRow(batch, concurrency, perWorker, policy) == w)
       <==> Allowed(w, o.expectation.Some?)
  {
    if Allowed(w, o.expectation.Some?) {
      AcceptedWarmupIsRow(w, concurrency, perWorker, o, policy);
      WarmupBatchIsExecuted(w, concurrency, perWorker, o);
    }
    if batch: Batch :| FromExecutor(batch, concurrency, perWorker, o) && WarmupRow(batch, concurrency, perWorker, policy) == w {
      ExecutedIsAllowed(batch, concurrency, perWorker, o, policy);
    }
  }

  lemma {:induction false} HalfFailed()
    ensures ErrorPercent(1, 2) == 50.0
  {
  }

  lemma {:induction false} RowPasses(w: Warmup, abortErrorPercent: real)
    requires w.concurrency == 1 && w.planned == w.attempted == 2 && w.succeeded == w.failed == 1 && w.durationNs == 1 && w.durationMs == 0
    requires w.errorPercent == 50.0 < abortErrorPercent && FailureTotal(w.failures) == Some(1)
    ensures ValidWarmup(w, 1, 2) && WarmupAbort(w, abortErrorPercent).None?
  {
    HalfFailed();
  }

  lemma {:induction false} NotProduced(w: Warmup, o: Options, policy: Policy)
    requires o.expectation.None? && w.failures.expectation == 1
    ensures forall batch: Batch :: FromExecutor(batch, 1, 2, o) ==> WarmupRow(batch, 1, 2, policy) != w
  {
    forall batch: Batch | FromExecutor(batch, 1, 2, o) ensures WarmupRow(batch, 1, 2, policy) != w {
      ExecutedIsAllowed(batch, 1, 2, o, policy);
    }
  }

  /** There is a row that passes although, without an expectation, no batch gives it: one success and one
      failed expectation. */
  lemma {:induction false} UnproducedWarmupPasses(o: Options, policy: Policy) returns (w: Warmup)
    requires o.expectation.None? && policy.abortErrorPercent > 50.0
    ensures ValidWarmup(w, 1, 2) && w.status == Complete && WarmupAbort(w, policy.abortErrorPercent).None?
    ensures forall batch: Batch :: FromExecutor(batch, 1, 2, o) ==> WarmupRow(batch, 1, 2, policy) != w
  {
    w := Warmup(Complete, 1, 2, 2, 1, 1, 50.0, 1, 0, Counts(0, 0, 0, 0, 1));
    RowPasses(w, policy.abortErrorPercent);
    NotProduced(w, o, policy);
  }
}
