/** What the verdicts on a ladder say about the requests behind it. */
module LadderVerdict {
  import opened Common
  import opened Admission
  import opened StageSummary
  import opened StageVerdict
  import opened Ladder
  import opened Assessment
  import opened SavedReport
  import opened ProducerAccepted

  /** The stages stand at the first concurrencies of the plan, in order, and hold the summaries and
      gates of their own attempts. */
  ghost predicate Tell(stages: seq<Stage>, plan: seq<nat>, maxTokens: nat, p: Policy) {
    && |stages| <= |plan| && StrictlyIncreasing(plan) && maxTokens <= MAX_COMPLETION_TOKENS && p.minimumLatencySamples > 0
    && forall i :: 0 <= i < |stages| ==> Tells(stages[i], plan[i], maxTokens, p)
  }

  ghost predicate Tells(s: Stage, concurrency: nat, maxTokens: nat, p: Policy) {
    && s.concurrency == concurrency && s.durationNs >= 1 && |s.attempts| <= MAX_ATTEMPTS
    && s.summary == SummaryOf(s.attempts, s.durationNs, maxTokens) && s.gates == GatesOf(s.summary, p)
  }

  ghost predicate MeetsPolicy(s: Stage, maxTokens: nat, p: Policy) { Meets(s.attempts, s.durationNs, maxTokens, p) }

  lemma {:induction false} TwoGatesAtLeast(s: Summary, p: Policy)
    ensures GatesOf(s, p) != []
  {
    assert |BaseGates(s, p)| == 2;
  }

  lemma {:induction false} AcceptedMeans(s: Stage, concurrency: nat, maxTokens: nat, p: Policy)
    requires Tells(s, concurrency, maxTokens, p) && maxTokens <= MAX_COMPLETION_TOKENS && p.minimumLatencySamples > 0
    ensures AllPass(s.gates) <==> MeetsPolicy(s, maxTokens, p)
    ensures Accepted(s) <==> MeetsPolicy(s, maxTokens, p)
  {
    StagePassesIff(s.attempts, s.durationNs, maxTokens, p);
    TwoGatesAtLeast(s.summary, p);
  }

  lemma {:induction false} LaterIsLarger(plan: seq<nat>, i: nat, j: nat)
    requires StrictlyIncreasing(plan) && i < j < |plan|
    ensures plan[i] < plan[j]
    decreases j
  {
    assert plan[j - 1] < plan[j];
    if i < j - 1 { LaterIsLarger(plan, i, j - 1); }
  }

  /** Stage `i` is the last one whose attempts meet the policy. */
  ghost predicate IsLastMeeting(stages: seq<Stage>, i: int, maxTokens: nat, p: Policy) {
    && 0 <= i < |stages| && MeetsPolicy(stages[i], maxTokens, p)
    && forall j :: i < j < |stages| ==> !MeetsPolicy(stages[j], maxTokens, p)
  }

  /** `highest` is the concurrency of the last reached stage whose attempts meet the policy, or nothing
      when there is no such stage. */
  ghost predicate IsHighest(highest: Option<nat>, stages: seq<Stage>, plan: seq<nat>, maxTokens: nat, p: Policy)
    requires |stages| <= |plan|
  {
    && (highest.Some? ==> exists i :: IsLastMeeting(stages, i, maxTokens, p) && highest == Some(plan[i]))
    && (highest.None? <==> forall i :: 0 <= i < |stages| ==> !MeetsPolicy(stages[i], maxTokens, p))
  }

  /** The stage at a concurrency was reached, and its attempts meet the policy. */
  ghost predicate MetAt(concurrency: nat, stages: seq<Stage>, plan: seq<nat>, maxTokens: nat, p: Policy)
    requires |stages| <= |plan|
  {
    exists i :: 0 <= i < |stages| && plan[i] == concurrency && MeetsPolicy(stages[i], maxTokens, p)
  }

  /** The highest accepted concurrency is that of the last reached stage whose attempts meet the policy;
      there is none iff no stage's attempts do. */
  lemma {:induction false} HighestAcceptedIs(stages: seq<Stage>, plan: seq<nat>, maxTokens: nat, p: Policy)
    requires Tell(stages, plan, maxTokens, p)
    ensures IsHighest(HighestAccepted(stages), stages, plan, maxTokens, p)
  {
    forall i | 0 <= i < |stages| ensures Accepted(stages[i]) <==> MeetsPolicy(stages[i], maxTokens, p) {
      assert Tells(stages[i], plan[i], maxTokens, p);
      AcceptedMeans(stages[i], plan[i], maxTokens, p);
    }
    if HighestAccepted(stages).Some? {
      var i :| 0 <= i < |stages| && Accepted(stages[i]) && stages[i].concurrency == HighestAccepted(stages).value;
      forall j | i < j < |stages| ensures !MeetsPolicy(stages[j], maxTokens, p) {
        LaterIsLarger(plan, i, j);
        assert Tells(stages[i], plan[i], maxTokens, p) && Tells(stages[j], plan[j], maxTokens, p);
      }
      assert Tells(stages[i], plan[i], maxTokens, p);
      assert IsLastMeeting(stages, i, maxTokens, p);
    }
  }

  /** A requested concurrency passes iff its stage was reached and the attempts there meet the policy. */
  lemma {:induction false} VerifyPassesIffMeets(stages: seq<Stage>, plan: seq<nat>, maxTokens: nat, p: Policy, concurrency: nat)
    requires Tell(stages, plan, maxTokens, p)
    ensures Verify(Some(concurrency), stages).status == Passed <==> MetAt(concurrency, stages, plan, maxTokens, p)
  {
    forall i, j | 0 <= i < j < |stages| ensures stages[i].concurrency != stages[j].concurrency {
      LaterIsLarger(plan, i, j);
      assert Tells(stages[i], plan[i], maxTokens, p) && Tells(stages[j], plan[j], maxTokens, p);
    }
    VerifyPassesIff(concurrency, stages);
    forall i | 0 <= i < |stages|
      ensures stages[i].concurrency == plan[i] && (AllPass(stages[i].gates) <==> MeetsPolicy(stages[i], maxTokens, p))
    {
      assert Tells(stages[i], plan[i], maxTokens, p);
      AcceptedMeans(stages[i], plan[i], maxTokens, p);
    }
  }

  ghost predicate ViolatedAt(concurrency: nat, stages: seq<Stage>, plan: seq<nat>, maxTokens: nat, p: Policy)
    requires |stages| <= |plan|
  {
    exists i :: 0 <= i < |stages| && plan[i] == concurrency && Violates(stages[i].attempts, stages[i].durationNs, maxTokens, p)
  }

  /** Nothing the attempts do at a reached concurrency violates the policy, but they leave some of it open. */
  ghost predicate OpenAt(concurrency: nat, stages: seq<Stage>, plan: seq<nat>, maxTokens: nat, p: Policy)
    requires |stages| <= |plan|
  {
    exists i :: 0 <= i < |stages| && plan[i] == concurrency && LeavesOpen(stages[i].attempts, maxTokens, p)
                && !Violates(stages[i].attempts, stages[i].durationNs, maxTokens, p)
  }

  lemma {:induction false} GatesTell(s: Stage, concurrency: nat, maxTokens: nat, p: Policy)
    requires Tells(s, concurrency, maxTokens, p) && maxTokens <= MAX_COMPLETION_TOKENS && p.minimumLatencySamples > 0
    ensures SomeGate(s.gates, Fail) <==> Violates(s.attempts, s.durationNs, maxTokens, p)
    ensures SomeGate(s.gates, NotEvaluable) <==> LeavesOpen(s.attempts, maxTokens, p)
  {
    StageFailsIff(s.attempts, s.durationNs, maxTokens, p);
  }

  lemma {:induction false} OnlyAt(stages: seq<Stage>, plan: seq<nat>, maxTokens: nat, p: Policy, i: nat, j: nat)
    requires Tell(stages, plan, maxTokens, p) && i < |stages| && j < |stages| && plan[i] == plan[j]
    ensures i == j
  {
    if i < j { LaterIsLarger(plan, i, j); } else if j < i { LaterIsLarger(plan, j, i); }
  }

  /** It fails iff its stage was reached and the attempts there violate the policy, and is not verifiable
      iff it was not reached or they leave the policy open without violating it. */
  lemma {:induction false} VerifyFailsIff(stages: seq<Stage>, plan: seq<nat>, maxTokens: nat, p: Policy, concurrency: nat)
    requires Tell(stages, plan, maxTokens, p)
    ensures Verify(Some(concurrency), stages).status == Failed <==> ViolatedAt(concurrency, stages, plan, maxTokens, p)
    ensures Verify(Some(concurrency), stages).status == NotVerifiable
       <==> (forall i :: 0 <= i < |stages| ==> plan[i] != concurrency) || OpenAt(concurrency, stages, plan, maxTokens, p)
    ensures Verify(Some(concurrency), stages).reason == Some(StageNotRun) <==> forall i :: 0 <= i < |stages| ==> plan[i] != concurrency
    ensures Verify(Some(concurrency), stages).reason == Some(GateNotEvaluable) <==> OpenAt(concurrency, stages, plan, maxTokens, p)
  {
    var found := FindStage(stages, concurrency);
    forall i | 0 <= i < |stages| ensures stages[i].concurrency == plan[i] { assert Tells(stages[i], plan[i], maxTokens, p); }
    if found.Some? {
      var at := found.value;
      assert Tells(stages[at], plan[at], maxTokens, p);
      GatesTell(stages[at], plan[at], maxTokens, p);
      forall i: nat | i < |stages| && plan[i] == concurrency ensures i == at { OnlyAt(stages, plan, maxTokens, p, i, at); }
    }
  }

  // ---- Runs and saved reports ----

  lemma {:induction false} RequestsBounded(plan: Plan, i: nat)
    requires ValidSavedPlan(plan) && i < |plan.concurrencyStages|
    ensures plan.concurrencyStages[i] * plan.requestsPerWorker <= MAX_CONCURRENCY * MAX_REQUESTS_PER_WORKER <= MAX_ATTEMPTS
  {
    ProductBound(plan.concurrencyStages[i], plan.requestsPerWorker, MAX_CONCURRENCY, MAX_REQUESTS_PER_WORKER);
  }

  lemma {:induction false} SavedStageTells(r: Report, i: nat)
    requires ValidEvidence(r) && i < |r.out.stages|
    ensures i < |r.plan.concurrencyStages| && Tells(r.out.stages[i], r.plan.concurrencyStages[i], r.plan.maxTokens, r.policy)
  {
    assert StageOk(r, i);
    RequestsBounded(r.plan, i);
  }

  lemma {:induction false} AcceptedReportTells(r: Report)
    requires ValidEvidence(r)
    ensures Tell(r.out.stages, r.plan.concurrencyStages, r.plan.maxTokens, r.policy)
  {
    forall i: nat | i < |r.out.stages| ensures Tells(r.out.stages[i], r.plan.concurrencyStages[i], r.plan.maxTokens, r.policy) {
      SavedStageTells(r, i);
    }
  }

  lemma {:induction false} SavedVerdicts(r: Report)
    requires ValidEvidence(r)
    ensures r.assessment.highestAccepted == HighestAccepted(r.out.stages)
    ensures r.verification == Verify(r.verification.requested, r.out.stages)
  {
  }

  /** What an accepted report says of its highest accepted concurrency and of the requested one is true
      of the attempts it retains. */
  lemma {:induction false} AcceptedReportVerdicts(r: Report)
    requires ValidEvidence(r)
    ensures |r.out.stages| <= |r.plan.concurrencyStages|
    ensures IsHighest(r.assessment.highestAccepted, r.out.stages, r.plan.concurrencyStages, r.plan.maxTokens, r.policy)
    ensures r.verification.requested.Some? ==>
      (r.verification.status == Passed
       <==> MetAt(r.verification.requested.value, r.out.stages, r.plan.concurrencyStages, r.plan.maxTokens, r.policy))
  {
    AcceptedReportTells(r);
    SavedVerdicts(r);
    HighestAcceptedIs(r.out.stages, r.plan.concurrencyStages, r.plan.maxTokens, r.policy);
    if r.verification.requested.Some? {
      VerifyPassesIffMeets(r.out.stages, r.plan.concurrencyStages, r.plan.maxTokens, r.policy, r.verification.requested.value);
    }
  }

  lemma {:induction false} RunStageTells(o: Options, env: Environment, stages: seq<Stage>, i: nat)
    requires Validate(o).Some? && StagesFrom(o, PolicyOf(o), env, stages) && i < |stages| && StageFromExecutor(o, env, i)
    requires stages[i].durationNs >= 1
    ensures Tells(stages[i], o.concurrencyStages[i], o.maxTokens, PolicyOf(o))
  {
    PhaseCountsFit(o, i);
    var batch := env.stage(i).value;
    assert FromExecutor(batch, o.concurrencyStages[i], o.requestsPerWorker, o);
    assert stages[i] == StageRow(batch, o.concurrencyStages[i], o.requestsPerWorker, o.maxTokens, PolicyOf(o));
  }

  /** The same for the stages of an admitted run, accepted as a report or not. */
  lemma {:induction false} RunTells(o: Options, env: Environment, out: Outcome)
    requires Validate(o).Some? && RowsFrom(o, PolicyOf(o), env, out) && ExecutorEnvironment(o, env)
    requires forall i :: 0 <= i < |out.stages| ==> out.stages[i].durationNs >= 1
    ensures Tell(out.stages, o.concurrencyStages, o.maxTokens, PolicyOf(o))
  {
    AdmittedIff(o);
    forall i: nat | i < |out.stages| ensures Tells(out.stages[i], o.concurrencyStages[i], o.maxTokens, PolicyOf(o)) {
      RunStageTells(o, env, out.stages, i);
    }
  }

  /** Whatever its report is worth, the verdicts of an admitted run are true of the requests it made. */
  lemma {:induction false} RunVerdicts(o: Options, env: Environment, out: Outcome, requested: nat)
    requires Validate(o).Some? && RowsFrom(o, PolicyOf(o), env, out) && ExecutorEnvironment(o, env)
    requires forall i :: 0 <= i < |out.stages| ==> out.stages[i].durationNs >= 1
    ensures IsHighest(HighestAccepted(out.stages), out.stages, o.concurrencyStages, o.maxTokens, PolicyOf(o))
    ensures Verify(Some(requested), out.stages).status == Passed
       <==> MetAt(requested, out.stages, o.concurrencyStages, o.maxTokens, PolicyOf(o))
  {
    RunTells(o, env, out);
    HighestAcceptedIs(out.stages, o.concurrencyStages, o.maxTokens, PolicyOf(o));
    VerifyPassesIffMeets(out.stages, o.concurrencyStages, o.maxTokens, PolicyOf(o), requested);
  }

  // ---- Plateaus ----

  /** A step is a plateau iff the relative gain in throughput is at most the threshold, in percent, of
      the relative gain in concurrency. */
  lemma {:induction false} PlateauIff(previous: Stage, current: Stage, t: real)
    requires previous.summary.successfulRps > 0.0 && 0 < previous.concurrency < current.concurrency
    ensures MarginalEfficiency(previous, current).Some?
    ensures MarginalEfficiency(previous, current).value <= t <==>
      (current.summary.successfulRps - previous.summary.successfulRps) * previous.concurrency as real * 100.0
      <= t * (current.concurrency - previous.concurrency) as real * previous.summary.successfulRps
  {
    var a, b := previous.summary.successfulRps, current.summary.successfulRps;
    var c, d := previous.concurrency as real, current.concurrency as real;
    var rps, width := (b / a - 1.0) * 100.0, (d / c - 1.0) * 100.0;
    GainTimes(a, b, rps);
    GainTimes(c, d, width);
    RatioAtMost(a, b, c, d, rps, width, t);
  }

  lemma {:induction false} GainTimes(a: real, b: real, gain: real)
    requires a > 0.0 && gain == (b / a - 1.0) * 100.0
    ensures gain * a == (b - a) * 100.0
    ensures b > a ==> gain > 0.0
  {
    assert b / a * a == b;
    assert gain <= 0.0 ==> gain * a <= 0.0;
  }

  lemma {:induction false} RatioAtMost(a: real, b: real, c: real, d: real, rps: real, width: real, t: real)
    requires a > 0.0 && 0.0 < c < d && width > 0.0 && rps * a == (b - a) * 100.0 && width * c == (d - c) * 100.0
    ensures rps / width * 100.0 <= t <==> (b - a) * c * 100.0 <= t * (d - c) * a
  {
    var q := rps / width;
    assert q * width == rps;
    Scaled(q * 100.0, t, width * a * c);
    assert q * 100.0 * (width * a * c) == rps * a * c * 100.0 == (b - a) * 100.0 * c * 100.0;
    assert t * (width * a * c) == t * ((d - c) * 100.0) * a;
    assert width * a * c > 0.0;
  }

  lemma {:induction false} Scaled(x: real, y: real, k: real)
    ensures k > 0.0 ==> (x <= y <==> x * k <= y * k)
  {
    if k > 0.0 {
      if x <= y { assert x * k <= y * k; }
      if x > y { assert x * k > y * k; }
    }
  }

  /** Scaling efficiency compares throughput per unit of concurrency with that of the baseline. */
  lemma {:induction false} ScalingEfficiencyIs(baseline: Stage, current: Stage)
    requires baseline.summary.successfulRps > 0.0 && baseline.concurrency > 0 && current.concurrency > 0
    ensures ScalingEfficiency(baseline, current).Some?
    ensures ScalingEfficiency(baseline, current).value * baseline.summary.successfulRps * current.concurrency as real
         == 100.0 * current.summary.successfulRps * baseline.concurrency as real
  {
    EfficiencyOf(baseline.summary.successfulRps, current.summary.successfulRps, baseline.concurrency as real, current.concurrency as real);
  }

  lemma {:induction false} EfficiencyOf(a: real, b: real, c: real, d: real)
    requires a > 0.0 && c > 0.0 && d > 0.0
    ensures d / c > 0.0 && b / a / (d / c) * 100.0 * a * d == 100.0 * b * c
  {
    var throughput, width := b / a, d / c;
    assert throughput * a == b && width * c == d;
    assert width <= 0.0 ==> width * c <= 0.0;
    var q := throughput / width;
    assert q * width == throughput;
    assert q * d == q * width * c == throughput * c;
    assert q * d * a == throughput * a * c;
  }
}
