/** The bounded closed-loop batch executor: index ranges, the work of one worker, and the merging
    of what the workers return. */
module Workload {
  import opened Common
  import Sorting

  datatype Error =
    | ZeroConcurrency
    | ThreadSpawnFailed
    | WorkerPanicked(index: Option<nat>)
    | IncompleteResults(expected: nat, actual: nat)

  datatype Batch<+T> = Batch(duration: nat, results: seq<T>)

  datatype WorkerResults<+T> = WorkerResults(results: seq<(nat, T)>, firstPanic: Option<nat>, duration: nat)

  /** What joining a worker thread yields; `Unwound` is a thread that ended by a panic outside an
      invocation. */
  datatype JoinOutcome<+T> = Joined(worker: WorkerResults<T>) | Unwound

  /** The start of a batch: nothing to do, nobody to do it, or this many workers to spawn. */
  datatype Launch<+T> = Immediate(batch: Result<Batch<T>, Error>) | Start(workers: nat)

  function LaunchOf<T>(count: nat, concurrency: nat): Launch<T> {
    if count == 0 then Immediate(Ok(Batch(0, [])))
    else if concurrency == 0 then Immediate(Err(ZeroConcurrency))
    else Start(Min(count, concurrency))
  }

  // ---- Index ranges ----

  function WorkerRange(count: nat, workers: nat, slot: nat): (nat, nat)
    requires workers > 0
  {
    var base := count / workers;
    var remainder := count % workers;
    var extraBefore := Min(slot, remainder);
    var start := SaturatingAdd(SaturatingMul(slot, base), extraBefore);
    var length := base + if slot < remainder then 1 else 0;
    (start, SaturatingAdd(start, length))
  }

  /** First index of the range of `slot`, in unbounded arithmetic. */
  function RangeStart(count: nat, workers: nat, slot: nat): nat
    requires workers > 0
  {
    slot * (count / workers) + Min(slot, count % workers)
  }

  lemma {:induction false} RangeStartMonotone(count: nat, workers: nat, slot: nat, later: nat)
    requires workers > 0 && slot <= later
    ensures RangeStart(count, workers, slot) <= RangeStart(count, workers, later)
    ensures later > slot ==> RangeStart(count, workers, slot) + count / workers <= RangeStart(count, workers, later)
    decreases later - slot
  {
    if slot < later {
      RangeStartMonotone(count, workers, slot + 1, later);
      assert (slot + 1) * (count / workers) == slot * (count / workers) + count / workers;
    }
  }

  lemma {:induction false} RangeEnds(count: nat, workers: nat)
    requires 0 < workers
    ensures RangeStart(count, workers, 0) == 0 && RangeStart(count, workers, workers) == count
  {
    assert 0 * (count / workers) == 0;
    assert count == workers * (count / workers) + count % workers;
  }

  /** The ranges of consecutive slots adjoin, begin at zero, end at `count`, and their lengths
      differ by at most one; the saturating arithmetic never saturates. */
  lemma {:induction false} RangesPartition(count: nat, workers: nat, slot: nat)
    requires 0 < workers && slot < workers && count <= U64_MAX
    ensures WorkerRange(count, workers, slot) == (RangeStart(count, workers, slot), RangeStart(count, workers, slot + 1))
    ensures RangeStart(count, workers, 0) == 0 && RangeStart(count, workers, workers) == count
    ensures count / workers
         <= RangeStart(count, workers, slot + 1) - RangeStart(count, workers, slot)
         <= count / workers + 1
    ensures RangeStart(count, workers, slot + 1) <= count
  {
    RangeEnds(count, workers);
    RangeStartMonotone(count, workers, slot + 1, workers);
    RangeStep(count, workers, slot);
  }

  lemma {:induction false} RangeStep(count: nat, workers: nat, slot: nat)
    requires 0 < workers && slot < workers
    ensures RangeStart(count, workers, slot + 1)
         == RangeStart(count, workers, slot) + count / workers + if slot < count % workers then 1 else 0
  {
    assert (slot + 1) * (count / workers) == slot * (count / workers) + count / workers;
  }

  /** When every worker gets the same number of operations, the ranges are the consecutive chunks
      of that width and nothing is left over. */
  lemma {:induction false} ExactMultipleRanges(workers: nat, perWorker: nat, slot: nat)
    requires 0 < workers && slot < workers && workers * perWorker <= U64_MAX
    ensures WorkerRange(workers * perWorker, workers, slot) == (slot * perWorker, (slot + 1) * perWorker)
  {
    var count := workers * perWorker;
    assert count / workers == perWorker && count % workers == 0 by {
      MultipleDivides(workers, perWorker);
    }
    RangesPartition(count, workers, slot);
  }

  lemma {:induction false} MultipleDivides(a: nat, b: nat)
    requires a > 0
    ensures (a * b) / a == b && (a * b) % a == 0
  {
    var x := b - (a * b) / a;
    assert a * x == a * b - a * ((a * b) / a) == (a * b) % a;
    assert x >= 1 ==> a * x >= a;
    assert x <= -1 ==> a * x + a <= 0;
  }

  // ---- The work of one worker ----

  /** Results of the invocations `from..to` that returned; `None` stands for a panic. */
  function Returned<T>(outcome: nat -> Option<T>, from: nat, stop: nat): seq<(nat, T)>
    requires from <= stop
    decreases stop
  {
    if from == stop then []
    else match outcome(stop - 1)
      case None => Returned(outcome, from, stop - 1)
      case Some(v) => Returned(outcome, from, stop - 1) + [(stop - 1, v)]
  }

  function LeastPanic<T>(outcome: nat -> Option<T>, from: nat, stop: nat): (r: Option<nat>)
    requires from <= stop
    ensures r.Some? ==> from <= r.value < stop && outcome(r.value).None?
    ensures forall i :: from <= i < stop && outcome(i).None? ==> r.Some? && r.value <= i
    decreases stop - from
  {
    if from == stop then None
    else if outcome(from).None? then Some(from)
    else LeastPanic(outcome, from + 1, stop)
  }

  function EarlierPanic(a: Option<nat>, b: Option<nat>): Option<nat> {
    match (a, b)
    case (None, _) => b
    case (_, None) => a
    case (Some(x), Some(y)) => Some(Min(x, y))
  }

  lemma {:induction false} ReturnedSplit<T>(outcome: nat -> Option<T>, from: nat, mid: nat, stop: nat)
    requires from <= mid <= stop
    ensures Returned(outcome, from, stop) == Returned(outcome, from, mid) + Returned(outcome, mid, stop)
    decreases stop
  {
    if mid < stop { ReturnedSplit(outcome, from, mid, stop - 1); }
  }

  lemma {:induction false} ReturnedAscends<T>(outcome: nat -> Option<T>, from: nat, stop: nat)
    requires from <= stop
    ensures forall r :: r in Returned(outcome, from, stop) ==> from <= r.0 < stop && outcome(r.0) == Some(r.1)
    ensures Sorting.Ordered(Returned(outcome, from, stop), IndexLeq)
    decreases stop
  {
    if from < stop { ReturnedAscends(outcome, from, stop - 1); }
  }

  lemma {:induction false} LeastPanicSplit<T>(outcome: nat -> Option<T>, from: nat, mid: nat, stop: nat)
    requires from <= mid <= stop
    ensures LeastPanic(outcome, from, stop)
         == EarlierPanic(LeastPanic(outcome, from, mid), LeastPanic(outcome, mid, stop))
  {
  }

  /** The loop of one worker over its range. */
  method RunRange<T>(outcome: nat -> Option<T>, start: nat, stop: nat)
    returns (results: seq<(nat, T)>, firstPanic: Option<nat>)
    requires start <= stop
    ensures results == Returned(outcome, start, stop)
    ensures firstPanic == LeastPanic(outcome, start, stop)
  {
    results, firstPanic := [], None;
    for index := start to stop
      invariant results == Returned(outcome, start, index)
      invariant firstPanic == LeastPanic(outcome, start, index)
    {
      LeastPanicSplit(outcome, start, index, index + 1);
      match outcome(index) {
        case Some(result) =>
          results := results + [(index, result)];
        case None =>
          firstPanic := Some(match firstPanic case None => index case Some(prior) => Min(prior, index));
      }
    }
  }

  // ---- Merging ----

  predicate IndexLeq<T>(a: (nat, T), b: (nat, T)) { a.0 <= b.0 }

  function Values<T>(results: seq<(nat, T)>): (r: seq<T>)
    ensures |r| == |results| && forall i :: 0 <= i < |r| ==> r[i] == results[i].1
  {
    seq(|results|, i requires 0 <= i < |results| => results[i].1)
  }

  function AllResults<T>(workers: seq<WorkerResults<T>>): seq<(nat, T)> {
    if workers == [] then []
    else AllResults(workers[..|workers| - 1]) + workers[|workers| - 1].results
  }

  function AnyPanic<T>(workers: seq<WorkerResults<T>>): Option<nat> {
    if workers == [] then None
    else EarlierPanic(AnyPanic(workers[..|workers| - 1]), workers[|workers| - 1].firstPanic)
  }

  function LongestDuration<T>(workers: seq<WorkerResults<T>>): (d: nat)
    ensures forall i :: 0 <= i < |workers| ==> workers[i].duration <= d
    ensures workers != [] ==> exists i :: 0 <= i < |workers| && workers[i].duration == d
  {
    if workers == [] then 0
    else
      var init := workers[..|workers| - 1];
      var longest := LongestDuration(init);
      assert forall i :: 0 <= i < |workers| - 1 ==> workers[i] == init[i];
      Max(longest, workers[|workers| - 1].duration)
  }

  function Merge<T>(workers: seq<WorkerResults<T>>, count: nat): Result<Batch<T>, Error> {
    match AnyPanic(workers)
    case Some(index) => Err(WorkerPanicked(Some(index)))
    case None =>
      var sorted := Sorting.Sort(AllResults(workers), IndexLeq);
      if |sorted| != count then Err(IncompleteResults(count, |sorted|))
      else Ok(Batch(LongestDuration(workers), Values(sorted)))
  }

  function Joins<T>(outcomes: seq<JoinOutcome<T>>): seq<WorkerResults<T>> {
    if outcomes == [] then []
    else
      var before := Joins(outcomes[..|outcomes| - 1]);
      match outcomes[|outcomes| - 1]
      case Unwound => before
      case Joined(worker) => before + [worker]
  }

  /** The tail of the executor: join the handles in slot order, then decide the batch. */
  method MergeWorkers<T>(handles: seq<JoinOutcome<T>>, count: nat) returns (batch: Result<Batch<T>, Error>)
    ensures batch == if Unwound in handles then Err(WorkerPanicked(None)) else Merge(Joins(handles), count)
  {
    var indexedResults: seq<(nat, T)> := [];
    var firstPanic: Option<nat> := None;
    var workerPanicked := false;
    var duration := 0;
    for slot := 0 to |handles|
      invariant workerPanicked <==> Unwound in handles[..slot]
      invariant indexedResults == AllResults(Joins(handles[..slot]))
      invariant firstPanic == AnyPanic(Joins(handles[..slot]))
      invariant duration == LongestDuration(Joins(handles[..slot]))
    {
      assert handles[..slot + 1][..slot] == handles[..slot];
      ghost var joined := Joins(handles[..slot]);
      match handles[slot] {
        case Joined(worker) =>
          duration := Max(duration, worker.duration);
          indexedResults := indexedResults + worker.results;
          if worker.firstPanic.Some? {
            var index := worker.firstPanic.value;
            firstPanic := Some(match firstPanic case None => index case Some(prior) => Min(prior, index));
          }
          assert (joined + [worker])[..|joined|] == joined;
        case Unwound =>
          workerPanicked := true;
      }
    }
    assert handles[..|handles|] == handles;
    if workerPanicked { return Err(WorkerPanicked(None)); }
    if firstPanic.Some? { return Err(WorkerPanicked(Some(firstPanic.value))); }
    indexedResults := Sorting.Sort(indexedResults, IndexLeq);
    if |indexedResults| != count { return Err(IncompleteResults(count, |indexedResults|)); }
    return Ok(Batch(duration, Values(indexedResults)));
  }

  /** Consecutive ranges `bounds[k]..bounds[k + 1]` that together are `0..count`. */
  ghost predicate IsPartition(bounds: seq<nat>, count: nat) {
    && |bounds| > 1 && bounds[0] == 0 && bounds[|bounds| - 1] == count
    && forall i, j :: 0 <= i <= j < |bounds| ==> bounds[i] <= bounds[j]
  }

  /** The bounds of the ranges the executor hands out. */
  ghost function ExecutorBounds(count: nat, workers: nat): (b: seq<nat>)
    requires 0 < workers
    ensures |b| == workers + 1
  {
    seq(workers + 1, slot requires 0 <= slot => RangeStart(count, workers, slot))
  }

  lemma {:induction false} ExecutorRangesArePartition(count: nat, workers: nat)
    requires 0 < workers && count <= U64_MAX
    ensures IsPartition(ExecutorBounds(count, workers), count)
    ensures forall slot :: 0 <= slot < workers ==>
      WorkerRange(count, workers, slot) == (ExecutorBounds(count, workers)[slot], ExecutorBounds(count, workers)[slot + 1])
  {
    RangeEnds(count, workers);
    var bounds := ExecutorBounds(count, workers);
    forall i, j | 0 <= i <= j < |bounds| ensures bounds[i] <= bounds[j] {
      RangeStartMonotone(count, workers, i, j);
    }
    forall slot | 0 <= slot < workers ensures WorkerRange(count, workers, slot) == (bounds[slot], bounds[slot + 1]) {
      RangesPartition(count, workers, slot);
    }
  }

  /** A worker that did its whole range. */
  ghost predicate DidRange<T>(outcome: nat -> Option<T>, from: nat, stop: nat, work: WorkerResults<T>) {
    from <= stop && work.results == Returned(outcome, from, stop) && work.firstPanic == LeastPanic(outcome, from, stop)
  }

  ghost predicate DidRanges<T>(outcome: nat -> Option<T>, bounds: seq<nat>, work: seq<WorkerResults<T>>) {
    && |work| < |bounds| && bounds[0] == 0
    && forall slot :: 0 <= slot < |work| ==> DidRange(outcome, bounds[slot], bounds[slot + 1], work[slot])
  }

  lemma {:induction false} RangesMerge<T>(outcome: nat -> Option<T>, bounds: seq<nat>, work: seq<WorkerResults<T>>)
    requires DidRanges(outcome, bounds, work)
    ensures AllResults(work) == Returned(outcome, 0, bounds[|work|])
    ensures AnyPanic(work) == LeastPanic(outcome, 0, bounds[|work|])
  {
    if work != [] {
      var init := work[..|work| - 1];
      RangesMerge(outcome, bounds, init);
      assert DidRange(outcome, bounds[|init|], bounds[|work|], work[|init|]);
      ReturnedSplit(outcome, 0, bounds[|init|], bounds[|work|]);
      LeastPanicSplit(outcome, 0, bounds[|init|], bounds[|work|]);
    }
  }

  lemma {:induction false} NoPanicReturnsAll<T>(outcome: nat -> Option<T>, from: nat, stop: nat)
    requires from <= stop && LeastPanic(outcome, from, stop).None?
    ensures |Returned(outcome, from, stop)| == stop - from
    ensures forall i :: from <= i < stop ==> outcome(i) == Some(Returned(outcome, from, stop)[i - from].1)
    decreases stop
  {
    if from < stop {
      LeastPanicSplit(outcome, from, stop - 1, stop);
      NoPanicReturnsAll(outcome, from, stop - 1);
      assert outcome(stop - 1).Some?;
      var init := Returned(outcome, from, stop - 1);
      assert Returned(outcome, from, stop) == init + [(stop - 1, outcome(stop - 1).value)];
    }
  }

  /** The batch that workers over the whole index space produce depends only on the outcomes:
      all results in index order, or the smallest panicking index. */
  ghost predicate IsBatchOf<T>(outcome: nat -> Option<T>, count: nat, batch: Result<Batch<T>, Error>) {
    match batch
    case Ok(b) => |b.results| == count && forall i :: 0 <= i < count ==> outcome(i) == Some(b.results[i])
    case Err(WorkerPanicked(Some(index))) =>
      index < count && outcome(index).None? && forall i :: 0 <= i < index ==> outcome(i).Some?
    case Err(_) => false
  }

  lemma {:induction false} ReturnedIsSorted<T(!new)>(outcome: nat -> Option<T>, from: nat, stop: nat)
    requires from <= stop
    ensures Sorting.Sort(Returned(outcome, from, stop), IndexLeq) == Returned(outcome, from, stop)
  {
    ReturnedAscends(outcome, from, stop);
    var all := Returned(outcome, from, stop);
    var leq: ((nat, T), (nat, T)) -> bool := IndexLeq;
    forall x, y | x in all && y in all && leq(x, y) && leq(y, x) ensures x == y {
      assert outcome(x.0) == Some(x.1) && outcome(y.0) == Some(y.1);
    }
    Sorting.SortOfOrdered(all, leq);
  }

  lemma {:induction false} ValuesOfAll<T>(outcome: nat -> Option<T>, count: nat)
    requires LeastPanic(outcome, 0, count).None?
    ensures |Values(Returned(outcome, 0, count))| == count
    ensures forall i :: 0 <= i < count ==> outcome(i) == Some(Values(Returned(outcome, 0, count))[i])
  {
    NoPanicReturnsAll(outcome, 0, count);
  }

  lemma {:induction false} MergeOfRanges<T(!new)>(outcome: nat -> Option<T>, bounds: seq<nat>, count: nat, work: seq<WorkerResults<T>>)
    requires IsPartition(bounds, count) && |work| + 1 == |bounds| && DidRanges(outcome, bounds, work)
    ensures IsBatchOf(outcome, count, Merge(work, count))
    ensures Merge(work, count).Ok? ==> Merge(work, count).value.duration == LongestDuration(work)
  {
    RangesMerge(outcome, bounds, work);
    var all := Returned(outcome, 0, count);
    assert AllResults(work) == all;
    match LeastPanic(outcome, 0, count) {
      case Some(index) =>
        assert Merge(work, count) == Err(WorkerPanicked(Some(index)));
      case None =>
        ReturnedIsSorted(outcome, 0, count);
        ValuesOfAll(outcome, count);
        assert Merge(work, count) == Ok(Batch(LongestDuration(work), Values(all)));
    }
  }
}
