/** What an accepted report leaves open: nothing but its evidence, which determines all the rest. */
module ReportEvidence {
  import opened Common
  import opened StageSummary
  import opened Ladder
  import opened SavedReport
  import Target
  import Workload

  /** An accepted stage is the row of the batch it retains. */
  lemma {:induction false} AcceptedStageIsRow(s: Stage, concurrency: nat, r: Report)
    requires ValidStage(s, concurrency, r) && s.durationNs <= U64_MAX
    ensures s == StageRow(Workload.Batch(s.durationNs, s.attempts), concurrency, r.plan.requestsPerWorker, r.plan.maxTokens, r.policy)
  {
  }

  // ---- Evidence determines the report ----

  /** The same start, server, model and workload, the same settings, warmup counts and durations, and
      measured attempts and durations. */
  ghost predicate SameEvidence(a: Report, b: Report) {
    && a.startedAt == b.startedAt && a.workloadId == b.workloadId && a.url == b.url && a.model == b.model
    && a.plan == b.plan && a.policy == b.policy && a.stream == b.stream && a.durationNs == b.durationNs
    && a.verification.requested == b.verification.requested
    && |a.out.warmups| == |b.out.warmups| && |a.out.stages| == |b.out.stages|
    && (forall i :: 0 <= i < |a.out.warmups| ==> SameWarmupEvidence(a.out.warmups[i], b.out.warmups[i]))
    && (forall i :: 0 <= i < |a.out.stages| ==> SameStageEvidence(a.out.stages[i], b.out.stages[i]))
  }

  predicate SameWarmupEvidence(a: Warmup, b: Warmup) {
    a.succeeded == b.succeeded && a.failures == b.failures && a.durationNs == b.durationNs
  }

  predicate SameStageEvidence(a: Stage, b: Stage) { a.attempts == b.attempts && a.durationNs == b.durationNs }

  lemma {:induction false} SameStage(a: Stage, b: Stage, concurrency: nat, r: Report, q: Report)
    requires ValidStage(a, concurrency, r) && ValidStage(b, concurrency, q)
    requires r.plan == q.plan && r.policy == q.policy && SameStageEvidence(a, b)
    ensures a == b
  {
  }

  lemma {:induction false} SameWarmup(a: Report, b: Report, i: nat)
    requires a.plan == b.plan && a.policy == b.policy
    requires i < |a.out.warmups| && i < |b.out.warmups| && i < |a.plan.concurrencyStages|
    requires WarmupOk(a, i) && WarmupOk(b, i) && SameWarmupEvidence(a.out.warmups[i], b.out.warmups[i])
    ensures a.out.warmups[i] == b.out.warmups[i]
  {
  }

  lemma {:induction false} SameRows(a: Report, b: Report)
    requires ValidEvidence(a) && ValidEvidence(b) && SameEvidence(a, b)
    ensures a.out.warmups == b.out.warmups && a.out.stages == b.out.stages
  {
    forall i: nat | i < |a.out.warmups| ensures a.out.warmups[i] == b.out.warmups[i] {
      assert WarmupOk(a, i) && WarmupOk(b, i);
      SameWarmup(a, b, i);
    }
    forall i: nat | i < |a.out.stages| ensures a.out.stages[i] == b.out.stages[i] {
      assert StageOk(a, i) && StageOk(b, i);
      SameStage(a.out.stages[i], b.out.stages[i], a.plan.concurrencyStages[i], a, b);
    }
  }

  /** Two accepted reports with the same evidence are the same report: statuses, reasons, summaries,
      gates, assessment and verdict leave no choice. */
  lemma {:induction false} EvidenceDeterminesReport(a: Report, b: Report, web: Target.Web)
    requires ValidReport(a, web) && ValidReport(b, web) && SameEvidence(a, b)
    ensures a == b
  {
    SameRows(a, b);
  }
}
