/** How far a run climbs and why it stops, in terms of the attempts of its phases alone. */
module LadderStops {
  import opened Common
  import opened Attempts
  import opened Admission
  import opened StageSummary
  import opened StageVerdict
  import opened Ladder
  import opened SavedReport
  import opened ProducerAccepted

  /** Some attempt succeeded, and the failed ones stay below the limit. */
  ghost predicate GoesOn(attempts: seq<Attempt>, limit: real) { !Barren(attempts) && !TooManyFail(attempts, limit) }

  /** Attempts of the warmups and of the stages that were reached, by position. */
  datatype Reached = Reached(warmups: seq<seq<Attempt>>, stages: seq<seq<Attempt>>)

  ghost predicate Bounded(reached: Reached) {
    && (forall i :: 0 <= i < |reached.warmups| ==> |reached.warmups[i]| <= U32_MAX)
    && (forall i :: 0 <= i < |reached.stages| ==> |reached.stages[i]| <= U32_MAX)
  }

  /** A warmup is followed by its stage, and a stage by the next warmup of the plan, iff its attempts go
      on; the last phase says why there is none after it. */
  ghost predicate Climbs(n: nat, reached: Reached, reason: Option<AbortReason>, limit: real) {
    var w, s := |reached.warmups|, |reached.stages|;
    && 1 <= w <= n && w - 1 <= s <= w
    && (forall i :: 0 <= i < w ==> (i < s <==> GoesOn(reached.warmups[i], limit)))
    && (forall i :: 0 <= i < s ==> (i + 1 < w <==> i + 1 < n && GoesOn(reached.stages[i], limit)))
    && reason == LastReason(reached, limit)
  }

  /** Why the run ended after its last phase; nothing when that phase could have been followed. */
  ghost function LastReason(reached: Reached, limit: real): Option<AbortReason>
    requires reached.warmups != [] && |reached.warmups| - 1 <= |reached.stages| <= |reached.warmups|
  {
    if |reached.stages| < |reached.warmups| then
      if Barren(reached.warmups[|reached.warmups| - 1]) then Some(WarmupNoSuccessfulRequests) else Some(WarmupErrorRateLimitExceeded)
    else
      var last := reached.stages[|reached.stages| - 1];
      if Barren(last) then Some(StageNoSuccessfulRequests)
      else if TooManyFail(last, limit) then Some(StageErrorRateLimitExceeded)
      else None
  }

  /** What a row shows of its phase. */
  ghost predicate WarmupShows(w: Warmup, attempts: seq<Attempt>, limit: real) {
    && (WarmupAbort(w, limit) == Some(WarmupNoSuccessfulRequests) <==> Barren(attempts))
    && (WarmupAbort(w, limit) == Some(WarmupErrorRateLimitExceeded) <==> !Barren(attempts) && TooManyFail(attempts, limit))
    && (WarmupAbort(w, limit).None? <==> GoesOn(attempts, limit))
  }

  ghost predicate StageShows(s: Stage, attempts: seq<Attempt>, limit: real) {
    && (StageAbort(s.summary, limit) == Some(StageNoSuccessfulRequests) <==> Barren(attempts))
    && (StageAbort(s.summary, limit) == Some(StageErrorRateLimitExceeded) <==> !Barren(attempts) && TooManyFail(attempts, limit))
    && (StageAbort(s.summary, limit).None? <==> GoesOn(attempts, limit))
  }

  ghost predicate Shows(out: Outcome, reached: Reached, limit: real) {
    && |reached.warmups| == |out.warmups| && |reached.stages| == |out.stages|
    && (forall i :: 0 <= i < |out.warmups| ==> WarmupShows(out.warmups[i], reached.warmups[i], limit))
    && (forall i :: 0 <= i < |out.stages| ==> StageShows(out.stages[i], reached.stages[i], limit))
  }

  lemma {:induction false} WarmupDecides(w: Warmup, attempts: seq<Attempt>, limit: real)
    requires WarmupShows(w, attempts, limit) && WarmupAbort(w, limit).Some?
    ensures WarmupAbort(w, limit) == if Barren(attempts) then Some(WarmupNoSuccessfulRequests) else Some(WarmupErrorRateLimitExceeded)
  {
  }

  lemma {:induction false} StageDecides(s: Stage, attempts: seq<Attempt>, limit: real)
    requires StageShows(s, attempts, limit)
    ensures StageAbort(s.summary, limit)
         == if Barren(attempts) then Some(StageNoSuccessfulRequests)
            else if TooManyFail(attempts, limit) then Some(StageErrorRateLimitExceeded) else None
  {
  }

  lemma {:induction false} LadderClimbs(n: nat, out: Outcome, reached: Reached, limit: real)
    requires IsLadder(n, out, limit) && Shows(out, reached, limit)
    ensures Climbs(n, reached, out.abortReason, limit)
  {
    var w, s := |out.warmups|, |out.stages|;
    forall i | 0 <= i < w ensures i < s <==> GoesOn(reached.warmups[i], limit) {
      assert WarmupShows(out.warmups[i], reached.warmups[i], limit);
    }
    forall i | 0 <= i < s ensures i + 1 < w <==> i + 1 < n && GoesOn(reached.stages[i], limit) {
      assert StageShows(out.stages[i], reached.stages[i], limit);
    }
    if s < w {
      WarmupDecides(out.warmups[s], reached.warmups[s], limit);
    } else {
      StageDecides(out.stages[s - 1], reached.stages[s - 1], limit);
    }
  }

  // ---- Runs ----

  /** The attempts of the phases a run reached. */
  ghost function ReachedIn(env: Environment, out: Outcome): (r: Reached)
    requires forall i: nat :: i < |out.warmups| ==> env.warmup(i).Some?
    requires forall i: nat :: i < |out.stages| ==> env.stage(i).Some?
    ensures |r.warmups| == |out.warmups| && forall i :: 0 <= i < |r.warmups| ==> r.warmups[i] == env.warmup(i).value.results
    ensures |r.stages| == |out.stages| && forall i :: 0 <= i < |r.stages| ==> r.stages[i] == env.stage(i).value.results
  {
    Reached(seq(|out.warmups|, i requires 0 <= i < |out.warmups| => env.warmup(i).value.results),
            seq(|out.stages|, i requires 0 <= i < |out.stages| => env.stage(i).value.results))
  }

  lemma {:induction false} WarmupRowShows(batch: Batch, concurrency: nat, perWorker: nat, policy: Policy)
    requires |batch.results| <= U32_MAX
    ensures var row := WarmupRow(batch, concurrency, perWorker, policy);
      WarmupShows(row, batch.results, policy.abortErrorPercent)
      && row.status == if GoesOn(batch.results, policy.abortErrorPercent) then Complete else Aborted
  {
    WarmupStopsIff(batch.results, concurrency, concurrency * perWorker, batch.duration, policy.abortErrorPercent);
  }

  lemma {:induction false} StageRowShows(batch: Batch, concurrency: nat, perWorker: nat, maxTokens: nat, policy: Policy)
    requires |batch.results| <= U32_MAX
    ensures StageShows(StageRow(batch, concurrency, perWorker, maxTokens, policy), batch.results, policy.abortErrorPercent)
  {
    StageStopsIff(batch.results, batch.duration, maxTokens, policy.abortErrorPercent);
  }

  /** A run climbs the plan as its attempts say: every phase is followed by another iff some of its
      attempts succeeded and the failed ones stay below the limit, and the reason given is that of the
      last phase. */
  lemma {:induction false} RunClimbs(o: Options, policy: Policy, env: Environment, out: Outcome)
    requires IsLadder(|o.concurrencyStages|, out, policy.abortErrorPercent) && RowsFrom(o, policy, env, out)
    requires Bounded(ReachedIn(env, out))
    ensures Climbs(|o.concurrencyStages|, ReachedIn(env, out), out.abortReason, policy.abortErrorPercent)
    ensures forall i: nat :: i < |out.warmups| ==>
      (out.warmups[i].status == Aborted <==> !GoesOn(env.warmup(i).value.results, policy.abortErrorPercent))
  {
    var reached := ReachedIn(env, out);
    forall i: nat | i < |out.warmups|
      ensures WarmupShows(out.warmups[i], reached.warmups[i], policy.abortErrorPercent)
      ensures out.warmups[i].status == Aborted <==> !GoesOn(env.warmup(i).value.results, policy.abortErrorPercent)
    {
      assert |reached.warmups[i]| <= U32_MAX;
      WarmupRowShows(env.warmup(i).value, o.concurrencyStages[i], o.warmupRequestsPerWorker, policy);
    }
    forall i: nat | i < |out.stages| ensures StageShows(out.stages[i], reached.stages[i], policy.abortErrorPercent) {
      assert |reached.stages[i]| <= U32_MAX;
      StageRowShows(env.stage(i).value, o.concurrencyStages[i], o.requestsPerWorker, o.maxTokens, policy);
    }
    LadderClimbs(|o.concurrencyStages|, out, reached, policy.abortErrorPercent);
  }

  lemma {:induction false} AdmittedReachBounded(o: Options, policy: Policy, env: Environment, out: Outcome)
    requires Validate(o).Some? && ExecutorEnvironment(o, env) && RowsFrom(o, policy, env, out)
    ensures Bounded(ReachedIn(env, out))
  {
    var reached := ReachedIn(env, out);
    forall i: nat | i < |out.warmups| ensures |reached.warmups[i]| <= U32_MAX {
      PhaseCountsFit(o, i);
      assert WarmupFromExecutor(o, env, i);
    }
    forall i: nat | i < |out.stages| ensures |reached.stages[i]| <= U32_MAX {
      PhaseCountsFit(o, i);
      assert StageFromExecutor(o, env, i);
    }
  }

  /** So does every admitted run of the executor's batches. */
  lemma {:induction false} AdmittedRunClimbs(o: Options, env: Environment, out: Outcome)
    requires Validate(o).Some? && ExecutorEnvironment(o, env) && RowsFrom(o, PolicyOf(o), env, out)
    requires IsLadder(|o.concurrencyStages|, out, PolicyOf(o).abortErrorPercent)
    ensures Climbs(|o.concurrencyStages|, ReachedIn(env, out), out.abortReason, o.thresholds.abortErrorPercent)
  {
    AdmittedReachBounded(o, PolicyOf(o), env, out);
    RunClimbs(o, PolicyOf(o), env, out);
  }

  // ---- Saved reports ----

  /** The counts a report retains for a warmup, as far as they decide whether the run goes on. */
  predicate CountsGoOn(w: Warmup, limit: real) { w.succeeded > 0 && (w.failed as real) * 100.0 < limit * w.attempted as real }

  lemma {:induction false} CountsDecide(w: Warmup, concurrency: nat, perWorker: nat, limit: real)
    requires ValidWarmup(w, concurrency, perWorker)
    ensures WarmupAbort(w, limit)
         == if w.succeeded == 0 then Some(WarmupNoSuccessfulRequests)
            else if CountsGoOn(w, limit) then None else Some(WarmupErrorRateLimitExceeded)
  {
    if w.succeeded > 0 { PercentReached(w.failed, w.attempted, limit); }
  }

  lemma {:induction false} SavedStageShows(r: Report, i: nat)
    requires i < |r.out.stages| && i < |r.plan.concurrencyStages| && StageOk(r, i)
    ensures StageShows(r.out.stages[i], r.out.stages[i].attempts, r.policy.abortErrorPercent)
  {
    StageStopsIff(r.out.stages[i].attempts, r.out.stages[i].durationNs, r.plan.maxTokens, r.policy.abortErrorPercent);
  }

  /** The reason a saved ladder has to give, from the counts and attempts it retains. */
  ghost function RetainedReason(out: Outcome, limit: real): Option<AbortReason>
    requires out.warmups != [] && |out.warmups| - 1 <= |out.stages| <= |out.warmups|
  {
    if |out.stages| < |out.warmups| then
      if out.warmups[|out.warmups| - 1].succeeded == 0 then Some(WarmupNoSuccessfulRequests) else Some(WarmupErrorRateLimitExceeded)
    else
      var last := out.stages[|out.stages| - 1].attempts;
      if Barren(last) then Some(StageNoSuccessfulRequests)
      else if TooManyFail(last, limit) then Some(StageErrorRateLimitExceeded)
      else None
  }

  /** The same climb, read off what a report retains. */
  ghost predicate RetainedClimb(n: nat, out: Outcome, limit: real) {
    var w, s := |out.warmups|, |out.stages|;
    && 1 <= w <= n && w - 1 <= s <= w
    && (forall i :: 0 <= i < w ==> (i < s <==> CountsGoOn(out.warmups[i], limit)))
    && (forall i :: 0 <= i < s ==> (i + 1 < w <==> i + 1 < n && GoesOn(out.stages[i].attempts, limit)))
    && out.abortReason == RetainedReason(out, limit)
  }

  lemma {:induction false} SavedLadderClimbs(r: Report)
    requires SavedReport.ValidSchedule(r)
    ensures RetainedClimb(|r.plan.concurrencyStages|, r.out, r.policy.abortErrorPercent)
  {
    var w, s, limit := |r.out.warmups|, |r.out.stages|, r.policy.abortErrorPercent;
    forall i: nat | i < w
      ensures WarmupAbort(r.out.warmups[i], limit)
           == if r.out.warmups[i].succeeded == 0 then Some(WarmupNoSuccessfulRequests)
              else if CountsGoOn(r.out.warmups[i], limit) then None else Some(WarmupErrorRateLimitExceeded)
    {
      assert WarmupOk(r, i);
      CountsDecide(r.out.warmups[i], r.plan.concurrencyStages[i], r.plan.warmupRequestsPerWorker, limit);
    }
    forall i: nat | i < s ensures StageShows(r.out.stages[i], r.out.stages[i].attempts, limit) {
      assert StageOk(r, i);
      SavedStageShows(r, i);
    }
    if s == w { StageDecides(r.out.stages[s - 1], r.out.stages[s - 1].attempts, limit); }
  }

  /** The validator accepts no report that climbed further than its retained counts and attempts allow,
      none that stopped before, and none that gives another reason. */
  lemma {:induction false} AcceptedReportClimbs(r: Report)
    requires ValidEvidence(r)
    ensures RetainedClimb(|r.plan.concurrencyStages|, r.out, r.policy.abortErrorPercent)
    ensures r.status == RunComplete <==> RetainedReason(r.out, r.policy.abortErrorPercent).None?
  {
    SavedLadderClimbs(r);
  }
}
