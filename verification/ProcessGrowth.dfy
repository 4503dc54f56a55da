/** What two cycles of the tracker report of the processes they list. */
module ProcessGrowth {
  import opened Common
  import opened Trend

  predicate SamePair(u: Usage, w: Usage) { u.uuid == w.uuid && u.process.pid == w.process.pid }

  ghost predicate DistinctPairs(usages: seq<Usage>) { forall i, j :: 0 <= i < j < |usages| ==> !SamePair(usages[i], usages[j]) }

  /** The process was listed before, at least a second ago, and now uses at least the threshold more. */
  predicate GrewSince(w: Usage, u: Usage, elapsed: int, threshold: int) {
    SamePair(u, w) && elapsed >= 1_000_000_000 && u.process.memory >= w.process.memory + threshold
  }

  ghost predicate Grew(earlier: seq<Usage>, u: Usage, elapsed: int, threshold: int) {
    exists w :: w in earlier && GrewSince(w, u, elapsed, threshold)
  }

  /** A finding tells of a listed process that grew, and by how much. */
  ghost predicate TellsOfGrowth(earlier: seq<Usage>, later: seq<Usage>, elapsed: int, threshold: int, f: Finding) {
    exists u, w :: u in later && w in earlier && GrewSince(w, u, elapsed, threshold)
                   && f == Finding(u.index, u.process, u.process.memory - w.process.memory)
  }

  // ---- The table a cycle leaves ----

  lemma {:induction false} KeyOfPair(u: Usage, w: Usage)
    ensures KeyOf(u) == KeyOf(w) <==> SamePair(u, w)
  {
    if KeyOf(u) == KeyOf(w) { KeyInjective(u.uuid, u.process.pid, w.uuid, w.process.pid); }
  }

  /** Each usage is stored with its memory, since no other one of the cycle has its key. */
  lemma {:induction false} StoredIs(start: map<string, Sample>, usages: seq<Usage>, now: int, w: Usage)
    requires DistinctPairs(usages) && w in usages
    ensures KeyOf(w) in Stored(start, usages, now) && Stored(start, usages, now)[KeyOf(w)] == Sample(w.process.memory, now)
  {
    var init, last := usages[..|usages| - 1], usages[|usages| - 1];
    if w != last {
      var i :| 0 <= i < |usages| && usages[i] == w;
      assert init[i] == w && !SamePair(w, last);
      KeyOfPair(w, last);
      StoredIs(start, init, now, w);
    }
  }

  /** The table after a cycle, in terms of what the cycle listed. */
  ghost predicate IsTableOf(table: map<string, Sample>, usages: seq<Usage>, at: int) {
    && table.Keys == KeysOf(usages)
    && forall w :: w in usages ==> KeyOf(w) in table && table[KeyOf(w)] == Sample(w.process.memory, at)
  }

  lemma {:induction false} TableAfterCycle(start: map<string, Sample>, usages: seq<Usage>, at: int)
    requires DistinctPairs(usages)
    ensures IsTableOf(Restricted(Stored(start, usages, at), KeysOf(usages)), usages, at)
  {
    StoredEntries(start, usages, at);
    forall w | w in usages
      ensures KeyOf(w) in Stored(start, usages, at) && Stored(start, usages, at)[KeyOf(w)] == Sample(w.process.memory, at) && KeyOf(w) in KeysOf(usages)
    {
      StoredIs(start, usages, at, w);
    }
  }

  // ---- What the next cycle finds ----

  lemma {:induction false} WholeMilliseconds(ns: int)
    ensures Millis(ns) >= 1_000 <==> ns >= 1_000_000_000
  {
  }

  /** One usage gives a finding iff it grew since the earlier cycle. */
  lemma {:induction false} OneGrowth(table: map<string, Sample>, earlier: seq<Usage>, at: int, u: Usage, now: int, threshold: int)
    requires IsTableOf(table, earlier, at)
    ensures TellsOf(earlier, u, now - at, threshold, Growth(table, u, now, threshold))
  {
    WholeMilliseconds(now - at);
    forall w | w in earlier && SamePair(u, w)
      ensures KeyOf(u) in table && table[KeyOf(u)] == Sample(w.process.memory, at)
    {
      KeyOfPair(u, w);
    }
    if KeyOf(u) in table {
      var w :| w in earlier && KeyOf(w) == KeyOf(u);
      KeyOfPair(u, w);
    }
  }

  lemma {:induction false} DistinctInit(usages: seq<Usage>)
    requires usages != [] && DistinctPairs(usages)
    ensures DistinctPairs(usages[..|usages| - 1]) && KeyOf(usages[|usages| - 1]) !in KeysOf(usages[..|usages| - 1])
  {
    var init, last := usages[..|usages| - 1], usages[|usages| - 1];
    forall u | u in init ensures KeyOf(u) != KeyOf(last) {
      var i :| 0 <= i < |init| && init[i] == u;
      assert usages[i] == u;
      KeyOfPair(u, last);
    }
  }

  /** Each usage of the cycle is judged against the earlier one, because no other one has its key. */
  lemma {:induction false} FoundStep(table: map<string, Sample>, usages: seq<Usage>, now: int, threshold: int)
    requires usages != [] && DistinctPairs(usages)
    ensures Found(table, usages, now, threshold)
         == Found(table, usages[..|usages| - 1], now, threshold) + Growth(table, usages[|usages| - 1], now, threshold)
  {
    DistinctInit(usages);
    GrowthSincePreviousCycle(table, usages[..|usages| - 1], usages[|usages| - 1], now, threshold);
  }

  /** How many of the listed processes grew. */
  ghost function GrownCount(earlier: seq<Usage>, later: seq<Usage>, elapsed: int, threshold: int): nat {
    |Where(later, (u: Usage) => Grew(earlier, u, elapsed, threshold))|
  }

  lemma {:induction false} OneMoreGrown(earlier: seq<Usage>, later: seq<Usage>, elapsed: int, threshold: int)
    requires later != []
    ensures GrownCount(earlier, later, elapsed, threshold)
         == GrownCount(earlier, later[..|later| - 1], elapsed, threshold)
            + if Grew(earlier, later[|later| - 1], elapsed, threshold) then 1 else 0
  {
    WhereGrows(later, (u: Usage) => Grew(earlier, u, elapsed, threshold));
  }

  ghost predicate JudgedAgainst(earlier: seq<Usage>, later: seq<Usage>, elapsed: int, threshold: int, findings: seq<Finding>) {
    && |findings| == GrownCount(earlier, later, elapsed, threshold)
    && forall f :: f in findings <==> TellsOfGrowth(earlier, later, elapsed, threshold, f)
  }

  /** What one more usage adds to the findings. */
  ghost predicate TellsOf(earlier: seq<Usage>, u: Usage, elapsed: int, threshold: int, more: seq<Finding>) {
    && (more == [] <==> !Grew(earlier, u, elapsed, threshold))
    && forall w :: w in earlier && GrewSince(w, u, elapsed, threshold) ==> more == [Finding(u.index, u.process, u.process.memory - w.process.memory)]
  }

  lemma {:induction false} NoneJudged(earlier: seq<Usage>, elapsed: int, threshold: int)
    ensures JudgedAgainst(earlier, [], elapsed, threshold, [])
  {
    assert Where([], (u: Usage) => Grew(earlier, u, elapsed, threshold)) == {};
  }

  lemma {:induction false} OneMoreJudged(earlier: seq<Usage>, later: seq<Usage>, elapsed: int, threshold: int, found: seq<Finding>, more: seq<Finding>)
    requires later != [] && JudgedAgainst(earlier, later[..|later| - 1], elapsed, threshold, found)
    requires TellsOf(earlier, later[|later| - 1], elapsed, threshold, more)
    ensures JudgedAgainst(earlier, later, elapsed, threshold, found + more)
  {
    var init, u := later[..|later| - 1], later[|later| - 1];
    OneMoreGrown(earlier, later, elapsed, threshold);
    if Grew(earlier, u, elapsed, threshold) {
      var w :| w in earlier && GrewSince(w, u, elapsed, threshold);
      assert |more| == 1;
    }
    forall f ensures f in found + more <==> TellsOfGrowth(earlier, later, elapsed, threshold, f) {
      assert f in found <==> TellsOfGrowth(earlier, init, elapsed, threshold, f);
      assert forall v :: v in later <==> v in init || v == u;
    }
  }

  lemma {:induction false} FoundIsJudged(
    table: map<string, Sample>, earlier: seq<Usage>, at: int, later: seq<Usage>, now: int, elapsed: int, threshold: int)
    requires IsTableOf(table, earlier, at) && DistinctPairs(later) && elapsed == now - at
    ensures JudgedAgainst(earlier, later, elapsed, threshold, Found(table, later, now, threshold))
  {
    if later == [] {
      NoneJudged(earlier, elapsed, threshold);
    } else {
      DistinctInit(later);
      FoundIsJudged(table, earlier, at, later[..|later| - 1], now, elapsed, threshold);
      LastIsJudged(table, earlier, at, later, now, elapsed, threshold);
    }
  }

  lemma {:induction false} LastIsJudged(
    table: map<string, Sample>, earlier: seq<Usage>, at: int, later: seq<Usage>, now: int, elapsed: int, threshold: int)
    requires later != [] && IsTableOf(table, earlier, at) && DistinctPairs(later) && elapsed == now - at
    requires JudgedAgainst(earlier, later[..|later| - 1], elapsed, threshold, Found(table, later[..|later| - 1], now, threshold))
    ensures JudgedAgainst(earlier, later, elapsed, threshold, Found(table, later, now, threshold))
  {
    var found, more := Found(table, later[..|later| - 1], now, threshold), Growth(table, later[|later| - 1], now, threshold);
    FoundStep(table, later, now, threshold);
    OneGrowth(table, earlier, at, later[|later| - 1], now, threshold);
    OneMoreJudged(earlier, later, elapsed, threshold, found, more);
  }

  /** What a cycle reports and leaves behind, given what the one before listed. */
  ghost predicate CycleTells(
    earlier: seq<Usage>, at: int, usages: seq<Usage>, now: int, threshold: int, findings: seq<Finding>, table: map<string, Sample>)
  {
    JudgedAgainst(earlier, usages, now - at, threshold, findings) && IsTableOf(table, usages, now)
  }

  lemma {:induction false} NextCycleTells(
    before: map<string, Sample>, earlier: seq<Usage>, at: int, usages: seq<Usage>, now: int, threshold: int,
    findings: seq<Finding>, table: map<string, Sample>)
    requires IsTableOf(before, earlier, at) && DistinctPairs(usages)
    requires findings == Found(before, usages, now, threshold) && table == Restricted(Stored(before, usages, now), KeysOf(usages))
    ensures CycleTells(earlier, at, usages, now, threshold, findings, table)
  {
    FoundIsJudged(before, earlier, at, usages, now, now - at, threshold);
    TableAfterCycle(before, usages, now);
  }

  /** Two cycles of the tracker, each listing a process once: the second reports exactly the processes
      that were listed in the first, at least a second before, and now use at least the threshold more,
      each once and with the difference. */
  lemma {:induction false} SecondCycleTells(
    start: map<string, Sample>, earlier: seq<Usage>, at: int, between: map<string, Sample>, later: seq<Usage>, now: int, threshold: int,
    findings: seq<Finding>, table: map<string, Sample>)
    requires DistinctPairs(earlier) && DistinctPairs(later)
    requires between == Restricted(Stored(start, earlier, at), KeysOf(earlier))
    requires findings == Found(between, later, now, threshold) && table == Restricted(Stored(between, later, now), KeysOf(later))
    ensures CycleTells(earlier, at, later, now, threshold, findings, table)
  {
    TableAfterCycle(start, earlier, at);
    NextCycleTells(between, earlier, at, later, now, threshold, findings, table);
  }

  /** The growth that is worth a warning, in MiB: what is configured, or 256. */
  predicate IsThreshold(threshold: int, configured: int) { threshold == if configured > 0 then configured else 256 }

  /** The same of the tracker itself, whatever it held before. */
  method ObserveTwice(tracker: Tracker, earlier: seq<Gpu>, at: int, later: seq<Gpu>, now: int, ghost threshold: int)
    returns (findings: seq<Finding>)
    requires IsThreshold(threshold, tracker.growthWarning)
    requires DistinctPairs(Usages(earlier)) && DistinctPairs(Usages(later))
    modifies tracker`processes
    ensures CycleTells(Usages(earlier), at, Usages(later), now, threshold, findings, tracker.processes)
  {
    ghost var start := tracker.processes;
    findings := tracker.Observe(earlier, at);
    ghost var between := tracker.processes;
    findings := tracker.Observe(later, now);
    SecondCycleTells(start, Usages(earlier), at, between, Usages(later), now, threshold, findings, tracker.processes);
  }
}
