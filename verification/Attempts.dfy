/** One measured request: what the client records of an exchange, and what the validator of a saved
    report demands of the record. Instants are nanoseconds after the request was started. */
module Attempts {
  import opened Common

  const MAX_REPORTED_PROMPT_TOKENS: nat := 10_000_000

  datatype FailureStage = Transport | Http | Protocol | EmptyOutput | Expectation

  datatype Attempt = Attempt(
    index: nat, success: bool, statusCode: nat,
    headersMs: Option<real>, ttftMs: Option<real>, e2eMs: Option<real>,
    promptTokens: Option<nat>, completionTokens: Option<nat>, outputTokensPerSecond: Option<real>,
    expectationMet: Option<bool>, failureStage: Option<FailureStage>)

  function Milliseconds(ns: nat): real { ns as real / 1_000_000.0 }

  predicate IsSuccess(status: nat) { 200 <= status < 300 }

  // ---- What can happen to a request ----

  /** `headers` and `finish` are the instants at which the headers and the whole response were in;
      `visible` says that some generated character was not white space. */
  datatype Exchange =
    | SendFailed(finish: nat)
    | Rejected(status: nat, headers: nat, finish: nat)
    | Unreadable(status: nat, headers: nat, finish: nat, stage: FailureStage)
    | Answered(
        status: nat, headers: nat, finish: nat, visible: bool, expectationMet: Option<bool>,
        promptTokens: Option<nat>, completionTokens: Option<nat>, ttft: Option<nat>)

  /** The shape of every exchange. An unreadable body is a `Transport` failure when reading it
      failed and a `Protocol` failure when its text was wrong; a streamed answer with visible
      output has a first-token instant, an answer in one piece never has. */
  predicate Possible(x: Exchange, stream: bool, expectationConfigured: bool) {
    match x
    case SendFailed(_) => true
    case Rejected(status, headers, finish) => status > 0 && !IsSuccess(status) && headers <= finish
    case Unreadable(status, headers, finish, stage) =>
      IsSuccess(status) && headers <= finish && (stage == Transport || stage == Protocol)
    case Answered(status, headers, finish, visible, met, _, _, ttft) =>
      && IsSuccess(status) && headers <= finish && (met.Some? <==> expectationConfigured)
      && (ttft.Some? ==> stream && ttft.value <= finish)
      && (stream && visible ==> ttft.Some?)
  }

  function FailedAttempt(index: nat, stage: FailureStage, status: nat, headersMs: Option<real>, e2eMs: real): Attempt {
    Attempt(index, false, status, headersMs, None, Some(e2eMs), None, None, None, None, Some(stage))
  }

  function Within(tokens: Option<nat>, most: nat): Option<nat> {
    if tokens.Some? && 1 <= tokens.value <= most then tokens else None
  }

  function OutputTokenRate(tokens: Option<nat>, ttft: Option<nat>, e2e: nat): Option<real> {
    if tokens.None? || ttft.None? || tokens.value <= 1 || e2e <= ttft.value then None
    else Some((tokens.value - 1) as real / ((e2e - ttft.value) as real / 1_000_000_000.0))
  }

  /** What the client records. */
  function Record(index: nat, x: Exchange, maxTokens: nat): Attempt {
    match x
    case SendFailed(finish) => FailedAttempt(index, Transport, 0, None, Milliseconds(finish))
    case Rejected(status, headers, finish) =>
      FailedAttempt(index, Http, status, Some(Milliseconds(headers)), Milliseconds(finish))
    case Unreadable(status, headers, finish, stage) =>
      FailedAttempt(index, stage, status, Some(Milliseconds(headers)), Milliseconds(finish))
    case Answered(status, headers, finish, visible, met, prompt, completion, ttft) =>
      if !visible then FailedAttempt(index, EmptyOutput, status, Some(Milliseconds(headers)), Milliseconds(finish))
      else
        var success := met.GetOr(true);
        var tokens := Within(completion, maxTokens);
        Attempt(
          index, success, status, Some(Milliseconds(headers)),
          match ttft { case None => None case Some(at) => Some(Milliseconds(at)) },
          Some(Milliseconds(finish)), Within(prompt, MAX_REPORTED_PROMPT_TOKENS), tokens,
          OutputTokenRate(tokens, ttft, finish), met, if success then None else Some(Expectation))
  }

  // ---- What a saved attempt must look like ----

  predicate Measurement(m: Option<real>) { m.None? || m.value >= 0.0 }

  predicate NotAfter(a: Option<real>, b: Option<real>) { a.None? || b.None? || a.value <= b.value }

  predicate ValidTokens(tokens: Option<nat>, most: nat) { tokens.None? || 1 <= tokens.value <= most }

  predicate ValidCompleted(a: Attempt, stream: bool, expectationConfigured: bool, success: bool) {
    && IsSuccess(a.statusCode) && a.headersMs.Some? && a.e2eMs.Some? && (stream ==> a.ttftMs.Some?)
    && a.expectationMet == (if expectationConfigured then Some(success) else None)
    && (success || (expectationConfigured && a.failureStage == Some(Expectation)))
  }

  predicate ValidFailure(a: Attempt, stream: bool, expectationConfigured: bool) {
    && a.failureStage.Some?
    && (match a.failureStage.value
        case Transport => a.statusCode == 0 && a.headersMs.None? && a.e2eMs.Some?
        case Http => a.statusCode != 0 && !IsSuccess(a.statusCode) && a.headersMs.Some? && a.e2eMs.Some?
        case Protocol => IsSuccess(a.statusCode) && a.headersMs.Some? && a.e2eMs.Some?
        case EmptyOutput => IsSuccess(a.statusCode) && a.headersMs.Some? && a.e2eMs.Some?
        case Expectation => ValidCompleted(a, stream, expectationConfigured, false))
    && (a.failureStage != Some(Expectation) ==>
          a.ttftMs.None? && a.promptTokens.None? && a.completionTokens.None? && a.outputTokensPerSecond.None?
          && a.expectationMet.None?)
  }

  predicate ValidRateShape(a: Attempt, stream: bool) {
    var expected := stream && a.completionTokens.Some? && a.completionTokens.value >= 2
      && a.ttftMs.Some? && a.e2eMs.Some? && a.e2eMs.value > a.ttftMs.value;
    if a.outputTokensPerSecond.None? then !expected else expected && a.outputTokensPerSecond.value > 0.0
  }

  predicate ValidAttempt(a: Attempt, stream: bool, expectationConfigured: bool, maxTokens: nat) {
    && Measurement(a.headersMs) && Measurement(a.ttftMs) && Measurement(a.e2eMs) && Measurement(a.outputTokensPerSecond)
    && NotAfter(a.headersMs, a.e2eMs) && NotAfter(a.ttftMs, a.e2eMs)
    && (stream || (a.ttftMs.None? && a.outputTokensPerSecond.None?))
    && ValidTokens(a.promptTokens, MAX_REPORTED_PROMPT_TOKENS) && ValidTokens(a.completionTokens, maxTokens)
    && a.success == a.failureStage.None?
    && (if a.success then ValidCompleted(a, stream, expectationConfigured, true) else ValidFailure(a, stream, expectationConfigured))
    && ValidRateShape(a, stream)
  }

  // ---- Records and demands compared ----

  /** A transport failure that kept the status of the response it interrupted. */
  predicate InterruptedBody(a: Attempt) { a.failureStage == Some(Transport) && a.statusCode != 0 }

  lemma {:induction false} MillisecondsOrdered(a: nat, b: nat)
    ensures 0.0 <= Milliseconds(a)
    ensures a <= b <==> Milliseconds(a) <= Milliseconds(b)
  {
  }

  lemma {:induction false} RatePositive(tokens: nat, ttft: nat, e2e: nat)
    requires tokens >= 2 && ttft < e2e
    ensures OutputTokenRate(Some(tokens), Some(ttft), e2e).Some? && OutputTokenRate(Some(tokens), Some(ttft), e2e).value > 0.0
  {
    var seconds := (e2e - ttft) as real / 1_000_000_000.0;
    assert seconds > 0.0;
    var rate := (tokens - 1) as real / seconds;
    assert rate * seconds == (tokens - 1) as real;
    assert rate <= 0.0 ==> rate * seconds <= 0.0;
  }

  lemma {:induction false} FailuresAccepted(index: nat, x: Exchange, stream: bool, expectationConfigured: bool, maxTokens: nat)
    requires Possible(x, stream, expectationConfigured) && (x.Answered? ==> !x.visible)
    ensures ValidAttempt(Record(index, x, maxTokens), stream, expectationConfigured, maxTokens)
       <==> !InterruptedBody(Record(index, x, maxTokens))
  {
    MillisecondsOrdered(x.finish, x.finish);
    if !x.SendFailed? { MillisecondsOrdered(x.headers, x.finish); }
  }

  lemma {:induction false} AnswersAccepted(index: nat, x: Exchange, stream: bool, expectationConfigured: bool, maxTokens: nat)
    requires Possible(x, stream, expectationConfigured) && x.Answered? && x.visible
    ensures ValidAttempt(Record(index, x, maxTokens), stream, expectationConfigured, maxTokens)
    ensures !InterruptedBody(Record(index, x, maxTokens))
  {
    MillisecondsOrdered(x.headers, x.finish);
    if x.ttft.Some? {
      MillisecondsOrdered(x.ttft.value, x.finish);
      MillisecondsOrdered(x.finish, x.ttft.value);
      var tokens := Within(x.completionTokens, maxTokens);
      if tokens.Some? && tokens.value >= 2 && x.ttft.value < x.finish { RatePositive(tokens.value, x.ttft.value, x.finish); }
    }
  }

  /** The validator accepts the record of every possible exchange but one kind: a transport failure
      that still carries an HTTP status. */
  lemma {:induction false} RecordAcceptedIff(index: nat, x: Exchange, stream: bool, expectationConfigured: bool, maxTokens: nat)
    requires Possible(x, stream, expectationConfigured)
    ensures ValidAttempt(Record(index, x, maxTokens), stream, expectationConfigured, maxTokens)
       <==> !InterruptedBody(Record(index, x, maxTokens))
  {
    if x.Answered? && x.visible {
      AnswersAccepted(index, x, stream, expectationConfigured, maxTokens);
    } else {
      FailuresAccepted(index, x, stream, expectationConfigured, maxTokens);
    }
  }

  /** That kind does occur: the connection drops while a body with status 200 is being read. */
  lemma {:induction false} InterruptedBodyIsRejected()
    ensures var x := Unreadable(200, 1, 2, Transport);
      && Possible(x, true, true) && !ValidAttempt(Record(0, x, 16), true, true, 16)
  {
    RecordAcceptedIff(0, Unreadable(200, 1, 2, Transport), true, true, 16);
  }

  // ---- And back: an accepted attempt is the record of some exchange ----

  ghost predicate WholeNanoseconds(ms: Option<real>) { ms.None? || exists ns: nat :: ms.value == Milliseconds(ns) }

  ghost predicate WholeTimes(a: Attempt) {
    WholeNanoseconds(a.headersMs) && WholeNanoseconds(a.ttftMs) && WholeNanoseconds(a.e2eMs)
  }

  ghost function Nanoseconds(ms: Option<real>): (ns: nat)
    requires WholeNanoseconds(ms)
    ensures ms.Some? ==> ms.value == Milliseconds(ns)
  {
    if ms.None? then 0
    else
      var ns: nat :| ms.value == Milliseconds(ns);
      ns
  }

  /** The exchange an accepted attempt tells of. */
  ghost function Replay(a: Attempt, expectationConfigured: bool): Exchange
    requires WholeTimes(a)
  {
    var headers, finish := Nanoseconds(a.headersMs), Nanoseconds(a.e2eMs);
    match a.failureStage
    case Some(Transport) => SendFailed(finish)
    case Some(Http) => Rejected(a.statusCode, headers, finish)
    case Some(Protocol) => Unreadable(a.statusCode, headers, finish, Protocol)
    case Some(EmptyOutput) =>
      Answered(a.statusCode, headers, finish, false, if expectationConfigured then Some(false) else None, None, None, None)
    case _ =>
      Answered(a.statusCode, headers, finish, true, a.expectationMet, a.promptTokens, a.completionTokens,
               if a.ttftMs.None? then None else Some(Nanoseconds(a.ttftMs)))
  }

  lemma {:induction false} ReplayPossible(a: Attempt, stream: bool, expectationConfigured: bool, maxTokens: nat)
    requires ValidAttempt(a, stream, expectationConfigured, maxTokens) && WholeTimes(a)
    ensures Possible(Replay(a, expectationConfigured), stream, expectationConfigured)
  {
    MillisecondsOrdered(Nanoseconds(a.headersMs), Nanoseconds(a.e2eMs));
    MillisecondsOrdered(Nanoseconds(a.ttftMs), Nanoseconds(a.e2eMs));
  }

  /** Every attempt the validator accepts is the record of a possible exchange, but for the value of
      its token rate, which is checked to be there or not and to be positive, not recomputed. */
  lemma {:induction false} AcceptedIsRecord(a: Attempt, stream: bool, expectationConfigured: bool, maxTokens: nat)
    requires ValidAttempt(a, stream, expectationConfigured, maxTokens) && WholeTimes(a)
    ensures var x := Replay(a, expectationConfigured);
      && Possible(x, stream, expectationConfigured)
      && Record(a.index, x, maxTokens).(outputTokensPerSecond := a.outputTokensPerSecond) == a
      && (Record(a.index, x, maxTokens).outputTokensPerSecond.Some? <==> a.outputTokensPerSecond.Some?)
  {
    ReplayPossible(a, stream, expectationConfigured, maxTokens);
    MillisecondsOrdered(Nanoseconds(a.e2eMs), Nanoseconds(a.ttftMs));
    var x := Replay(a, expectationConfigured);
    assert x.Answered? && x.visible ==>
      Within(x.promptTokens, MAX_REPORTED_PROMPT_TOKENS) == a.promptTokens && Within(x.completionTokens, maxTokens) == a.completionTokens;
  }

  /** The token rate is the one the recorded tokens and times give. */
  ghost predicate RateAsMeasured(a: Attempt)
    requires WholeTimes(a)
  {
    a.outputTokensPerSecond
    == OutputTokenRate(a.completionTokens, if a.ttftMs.None? then None else Some(Nanoseconds(a.ttftMs)), Nanoseconds(a.e2eMs))
  }

  lemma {:induction false} NanosecondsBack(ns: nat)
    ensures WholeNanoseconds(Some(Milliseconds(ns))) && Nanoseconds(Some(Milliseconds(ns))) == ns
  {
    var back := Nanoseconds(Some(Milliseconds(ns)));
    MillisecondsOrdered(back, ns);
    MillisecondsOrdered(ns, back);
  }

  /** Times and rate of a record are whole and as measured. */
  lemma {:induction false} RecordIsMeasured(index: nat, x: Exchange, maxTokens: nat)
    ensures WholeTimes(Record(index, x, maxTokens)) && RateAsMeasured(Record(index, x, maxTokens))
    ensures Nanoseconds(Record(index, x, maxTokens).e2eMs) == x.finish
  {
    NanosecondsBack(x.finish);
    if !x.SendFailed? { NanosecondsBack(x.headers); }
    if x.Answered? && x.ttft.Some? { NanosecondsBack(x.ttft.value); }
  }

  /** With its rate as measured an accepted attempt is a record outright. */
  lemma {:induction false} MeasuredIsRecord(a: Attempt, stream: bool, expectationConfigured: bool, maxTokens: nat)
    requires ValidAttempt(a, stream, expectationConfigured, maxTokens) && WholeTimes(a) && RateAsMeasured(a)
    ensures Possible(Replay(a, expectationConfigured), stream, expectationConfigured)
    ensures Record(a.index, Replay(a, expectationConfigured), maxTokens) == a
  {
    AcceptedIsRecord(a, stream, expectationConfigured, maxTokens);
    var x := Replay(a, expectationConfigured);
    if x.Answered? && x.visible { assert Within(x.completionTokens, maxTokens) == a.completionTokens; }
  }

  // ---- What a record tells ----

  /** Milliseconds that stand for so many nanoseconds, or nothing for nothing. */
  predicate Covers(ms: Option<real>, ns: Option<nat>) {
    (ms.Some? <==> ns.Some?) && (ms.Some? ==> ms.value * 1_000_000.0 == ns.value as real)
  }

  /** A reported count is recorded iff it is in range. */
  predicate Keeps(recorded: Option<nat>, reported: Option<nat>, most: nat) {
    && (recorded.Some? <==> reported.Some? && 1 <= reported.value <= most)
    && (recorded.Some? ==> recorded == reported)
  }

  /** A token rate is there iff there is a second token and time after the first one, and times that
      time, in seconds, it gives the tokens after the first. */
  predicate RateFits(a: Attempt) {
    && (a.outputTokensPerSecond.Some? <==>
          a.completionTokens.Some? && a.completionTokens.value >= 2 && a.ttftMs.Some? && a.e2eMs.Some? && a.ttftMs.value < a.e2eMs.value)
    && (a.outputTokensPerSecond.Some? ==>
          a.outputTokensPerSecond.value * (a.e2eMs.value - a.ttftMs.value) == (a.completionTokens.value - 1) as real * 1000.0)
  }

  lemma {:induction false} RateGivesTokens(tokens: nat, ttft: nat, e2e: nat)
    requires tokens >= 2 && ttft < e2e
    ensures OutputTokenRate(Some(tokens), Some(ttft), e2e).Some?
    ensures OutputTokenRate(Some(tokens), Some(ttft), e2e).value * (Milliseconds(e2e) - Milliseconds(ttft)) == (tokens - 1) as real * 1000.0
  {
    var seconds := (e2e - ttft) as real / 1_000_000_000.0;
    var rate := OutputTokenRate(Some(tokens), Some(ttft), e2e).value;
    assert rate * seconds == (tokens - 1) as real;
    assert Milliseconds(e2e) - Milliseconds(ttft) == seconds * 1000.0;
    assert rate * (seconds * 1000.0) == rate * seconds * 1000.0;
  }

  lemma {:induction false} RecordedRateFits(index: nat, x: Exchange, maxTokens: nat)
    ensures RateFits(Record(index, x, maxTokens))
  {
    if x.Answered? && x.visible {
      var tokens := Within(x.completionTokens, maxTokens);
      if x.ttft.Some? { MillisecondsOrdered(x.finish, x.ttft.value); }
      if tokens.Some? && tokens.value >= 2 && x.ttft.Some? && x.ttft.value < x.finish { RateGivesTokens(tokens.value, x.ttft.value, x.finish); }
    }
  }

  /** A success is an answer with visible output that met the expectation, if there was one; only then,
      or when just the expectation was missed, are first token and tokens recorded. */
  lemma {:induction false} RecordTells(index: nat, x: Exchange, stream: bool, expectationConfigured: bool, maxTokens: nat)
    requires Possible(x, stream, expectationConfigured)
    ensures var a := Record(index, x, maxTokens); var visible := x.Answered? && x.visible;
      && Covers(a.e2eMs, Some(x.finish)) && Covers(a.headersMs, if x.SendFailed? then None else Some(x.headers))
      && Covers(a.ttftMs, if visible then x.ttft else None)
      && Keeps(a.promptTokens, if visible then x.promptTokens else None, 10_000_000)
      && Keeps(a.completionTokens, if visible then x.completionTokens else None, maxTokens)
      && RateFits(a)
    ensures var a := Record(index, x, maxTokens); var visible := x.Answered? && x.visible;
      && (a.success <==> visible && x.expectationMet != Some(false)) && (a.success <==> a.failureStage.None?)
      && (a.success ==> 200 <= a.statusCode < 300) && (a.failureStage == Some(Http) ==> a.statusCode < 200 || 300 <= a.statusCode)
      && (a.failureStage == Some(Expectation) <==> visible && x.expectationMet == Some(false))
      && (a.failureStage == Some(EmptyOutput) <==> x.Answered? && !x.visible)
      && (a.failureStage == Some(Http) <==> x.Rejected?)
      && (a.failureStage == Some(Transport) <==> x.SendFailed? || (x.Unreadable? && x.stage == Transport))
  {
    RecordedRateFits(index, x, maxTokens);
  }

  // ---- The time a worker spent ----

  /** The nanoseconds a recorded time surely covers; the limit of the conversion is two to the
      sixty-fourth. */
  function ConservativeNanoseconds(ms: real): Option<nat> {
    var ns := ms * 1_000_000.0;
    if 0.0 <= ns <= 18_446_744_073_709_551_616.0 then Some(Min(ns.Floor, U64_MAX)) else None
  }

  lemma {:induction false} NanosecondsExact(ns: nat)
    requires ns <= U64_MAX
    ensures ConservativeNanoseconds(Milliseconds(ns)) == Some(ns)
  {
    assert Milliseconds(ns) * 1_000_000.0 == ns as real;
  }

  /** Summed times of the attempts `from..till`; `None` when one is missing or out of range. */
  function TimeOf(attempts: seq<Attempt>, from: nat, till: nat): Option<nat>
    requires from <= till <= |attempts|
    decreases till
  {
    if from == till then Some(0)
    else match TimeOf(attempts, from, till - 1)
      case None => None
      case Some(total) =>
        var e2e := attempts[till - 1].e2eMs;
        if e2e.None? then None
        else match ConservativeNanoseconds(e2e.value)
          case None => None
          case Some(ns) => if total + ns > U64_MAX then None else Some(total + ns)
  }

  /** Time of the `k`-th full chunk of `width` attempts; an incomplete chunk is not looked at. */
  function ChunkTime(attempts: seq<Attempt>, width: nat, k: nat): Option<nat> {
    if k * width <= (k + 1) * width <= |attempts| then TimeOf(attempts, k * width, (k + 1) * width) else Some(0)
  }

  ghost predicate ChunkFits(attempts: seq<Attempt>, width: nat, duration: nat, k: nat) {
    ChunkTime(attempts, width, k).Some? && ChunkTime(attempts, width, k).value <= duration
  }

  /** Every full chunk, the work of one closed-loop worker, fits the duration. */
  ghost predicate WorkersFit(attempts: seq<Attempt>, width: nat, duration: nat) {
    forall k: nat :: ChunkFits(attempts, width, duration, k)
  }

  lemma {:induction false} ChunkAt(attempts: seq<Attempt>, width: nat, k: nat, start: nat)
    requires start == k * width
    ensures (k + 1) * width == start + width
    ensures start + width <= |attempts| ==> ChunkTime(attempts, width, k) == TimeOf(attempts, start, start + width)
  {
  }

  lemma {:induction false} NoFurtherChunk(attempts: seq<Attempt>, width: nat, chunks: nat, k: nat)
    requires chunks <= k && chunks * width + width > |attempts|
    ensures ChunkTime(attempts, width, k) == Some(0)
  {
    assert (k + 1) * width == chunks * width + width + (k - chunks) * width;
    assert (k - chunks) * width >= 0;
  }

  lemma {:induction false} TimeOfFailsEarly(attempts: seq<Attempt>, from: nat, mid: nat, till: nat)
    requires from <= mid <= till <= |attempts| && TimeOf(attempts, from, mid).None?
    ensures TimeOf(attempts, from, till).None?
    decreases till
  {
    if mid < till { TimeOfFailsEarly(attempts, from, mid, till - 1); }
  }

  /** The inner fold over one chunk. */
  method SumChunk(attempts: seq<Attempt>, from: nat, till: nat) returns (total: Option<nat>)
    requires from <= till <= |attempts|
    ensures total == TimeOf(attempts, from, till)
  {
    var sum := 0;
    for i := from to till
      invariant TimeOf(attempts, from, i) == Some(sum)
    {
      var e2e := attempts[i].e2eMs;
      var ns := if e2e.None? then None else ConservativeNanoseconds(e2e.value);
      if ns.None? || sum + ns.value > U64_MAX {
        TimeOfFailsEarly(attempts, from, i + 1, till);
        return None;
      }
      sum := sum + ns.value;
    }
    return Some(sum);
  }

  ghost predicate Longest(attempts: seq<Attempt>, width: nat, chunks: nat, longest: nat) {
    && (forall k: nat :: k < chunks ==> ChunkFits(attempts, width, longest, k))
    && (longest == 0 || exists k: nat :: k < chunks && ChunkTime(attempts, width, k) == Some(longest))
  }

  lemma {:induction false} LongestExtends(attempts: seq<Attempt>, width: nat, chunks: nat, longest: nat, worker: nat)
    requires Longest(attempts, width, chunks, longest) && ChunkTime(attempts, width, chunks) == Some(worker)
    ensures Longest(attempts, width, chunks + 1, Max(longest, worker))
  {
    forall k: nat | k < chunks + 1 ensures ChunkFits(attempts, width, Max(longest, worker), k) {
      assert k < chunks ==> ChunkFits(attempts, width, longest, k);
    }
    if longest <= worker { assert ChunkTime(attempts, width, chunks) == Some(Max(longest, worker)); }
  }

  lemma {:induction false} LongestDecides(attempts: seq<Attempt>, width: nat, chunks: nat, longest: nat, duration: nat)
    requires Longest(attempts, width, chunks, longest) && chunks * width + width > |attempts|
    ensures longest <= duration <==> WorkersFit(attempts, width, duration)
  {
    if longest <= duration {
      forall k: nat ensures ChunkFits(attempts, width, duration, k) {
        if k < chunks {
          assert ChunkFits(attempts, width, longest, k);
        } else {
          NoFurtherChunk(attempts, width, chunks, k);
        }
      }
    } else {
      var k: nat :| k < chunks && ChunkTime(attempts, width, k) == Some(longest);
      assert !ChunkFits(attempts, width, duration, k);
    }
  }

  /** Chunks of exactly `width` attempts, the longest of them against the stage duration. */
  method ValidateWorkerDurationLowerBound(attempts: seq<Attempt>, width: nat, duration: nat) returns (valid: bool)
    requires width > 0
    ensures valid == WorkersFit(attempts, width, duration)
  {
    var start: nat, longest: nat := 0, 0;
    ghost var chunks: nat := 0;
    while start + width <= |attempts|
      invariant start == chunks * width && Longest(attempts, width, chunks, longest)
      decreases |attempts| - start
    {
      ChunkAt(attempts, width, chunks, start);
      var worker := SumChunk(attempts, start, start + width);
      if worker.None? {
        assert !ChunkFits(attempts, width, duration, chunks);
        return false;
      }
      LongestExtends(attempts, width, chunks, longest, worker.value);
      longest := Max(longest, worker.value);
      start, chunks := start + width, chunks + 1;
    }
    LongestDecides(attempts, width, chunks, longest, duration);
    valid := longest <= duration;
  }
}
