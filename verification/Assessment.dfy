/** Reading a ladder: the saturation signal between neighbouring stages, the highest accepted
    concurrency and the verdict on one requested stage. */
module Assessment {
  import opened Common
  import opened Admission
  import opened StageSummary
  import opened Ladder
  import D = Distribution

  datatype Evidence = Evidence(
    baseline: nat, previous: nat, concurrency: nat, rpsGain: Option<real>, marginalEfficiency: Option<real>,
    scalingEfficiency: Option<real>, ttftInflation: Option<real>, e2eInflation: Option<real>)

  datatype Signal = PlateauWithErrorRate | PlateauWithLatencyInflation

  datatype AssessmentStatus = SignalObserved | NoSignalInTestedStages | NotAssessable

  datatype Assessed = Assessed(
    status: AssessmentStatus, signal: Option<Signal>, firstSignalConcurrency: Option<nat>,
    highestAccepted: Option<nat>, evidence: seq<Evidence>)

  function PercentChange(previous: real, current: real): Option<real> {
    if previous <= 0.0 then None else Some((current / previous - 1.0) * 100.0)
  }

  function MarginalEfficiency(previous: Stage, current: Stage): Option<real> {
    var rps := PercentChange(previous.summary.successfulRps, current.summary.successfulRps);
    var concurrency := PercentChange(previous.concurrency as real, current.concurrency as real);
    if rps.None? || concurrency.None? || concurrency.value <= 0.0 then None
    else Some(rps.value / concurrency.value * 100.0)
  }

  function ScalingEfficiency(baseline: Stage, current: Stage): Option<real> {
    if baseline.summary.successfulRps <= 0.0 || baseline.concurrency == 0 || current.concurrency == 0 then None
    else Some(current.summary.successfulRps / baseline.summary.successfulRps
              / (current.concurrency as real / baseline.concurrency as real) * 100.0)
  }

  function Inflation(previous: Option<D.Summary>, current: Option<D.Summary>, minimumSamples: nat): Option<real> {
    if previous.None? || current.None? || previous.value.samples < minimumSamples || current.value.samples < minimumSamples
    then None else PercentChange(previous.value.p95, current.value.p95)
  }

  function EvidenceOf(baseline: Stage, previous: Stage, current: Stage, minimumSamples: nat): Evidence {
    Evidence(baseline.concurrency, previous.concurrency, current.concurrency,
             PercentChange(previous.summary.successfulRps, current.summary.successfulRps),
             MarginalEfficiency(previous, current), ScalingEfficiency(baseline, current),
             Inflation(previous.summary.ttftMs, current.summary.ttftMs, minimumSamples),
             Inflation(previous.summary.e2eMs, current.summary.e2eMs, minimumSamples))
  }

  predicate Plateau(e: Evidence, p: Policy) {
    e.marginalEfficiency.Some? && e.marginalEfficiency.value <= p.signalMaxMarginalScalingEfficiencyPercent
  }

  predicate Inflated(e: Evidence, p: Policy) {
    || (e.ttftInflation.Some? && e.ttftInflation.value >= p.signalMinP95LatencyInflationPercent)
    || (e.e2eInflation.Some? && e.e2eInflation.value >= p.signalMinP95LatencyInflationPercent)
  }

  /** The signal one step of the ladder gives: a plateau with too many errors, or a plateau with
      inflated latency. */
  function SignalOf(e: Evidence, errorPercent: real, p: Policy): Option<Signal> {
    if !Plateau(e, p) then None
    else if errorPercent > p.maxErrorPercent then Some(PlateauWithErrorRate)
    else if Inflated(e, p) then Some(PlateauWithLatencyInflation)
    else None
  }

  /** A step whose evidence does not decide: no efficiency, or a plateau without errors that no
      latency was measured for. */
  predicate Gap(e: Evidence, errorPercent: real, p: Policy) {
    || e.marginalEfficiency.None?
    || (Plateau(e, p) && errorPercent <= p.maxErrorPercent && e.ttftInflation.None? && e.e2eInflation.None?)
  }

  function StepEvidence(stages: seq<Stage>, i: nat, p: Policy): Evidence
    requires 1 <= i < |stages|
  {
    EvidenceOf(stages[0], stages[i - 1], stages[i], p.minimumLatencySamples)
  }

  /** The evidence of the steps `1..n`, in order. */
  function StepsBelow(stages: seq<Stage>, n: nat, p: Policy): seq<Evidence>
    requires 1 <= n <= |stages|
  {
    seq(n - 1, i requires 0 <= i < n - 1 => StepEvidence(stages, i + 1, p))
  }

  lemma {:induction false} StepsGrow(stages: seq<Stage>, n: nat, p: Policy)
    requires 1 <= n < |stages|
    ensures StepsBelow(stages, n + 1, p) == StepsBelow(stages, n, p) + [StepEvidence(stages, n, p)]
  {
  }

  function StepSignal(stages: seq<Stage>, i: nat, p: Policy): Option<Signal>
    requires 1 <= i < |stages|
  {
    SignalOf(StepEvidence(stages, i, p), stages[i].summary.errorPercent, p)
  }

  predicate StepGap(stages: seq<Stage>, i: nat, p: Policy)
    requires 1 <= i < |stages|
  {
    Gap(StepEvidence(stages, i, p), stages[i].summary.errorPercent, p)
  }

  /** Position of the first step among `1..n` that gives a signal. */
  function FirstSignal(stages: seq<Stage>, n: nat, p: Policy): (r: Option<nat>)
    requires n <= |stages|
    ensures r.Some? ==> 1 <= r.value < n && StepSignal(stages, r.value, p).Some?
    ensures r.Some? ==> forall i :: 1 <= i < r.value ==> StepSignal(stages, i, p).None?
    ensures r.None? ==> forall i :: 1 <= i < n ==> StepSignal(stages, i, p).None?
  {
    if n <= 1 then None
    else
      var earlier := FirstSignal(stages, n - 1, p);
      if earlier.Some? then earlier else if StepSignal(stages, n - 1, p).Some? then Some(n - 1) else None
  }

  predicate SomeGap(stages: seq<Stage>, n: nat, p: Policy)
    requires n <= |stages|
  {
    exists i | 1 <= i < n :: StepGap(stages, i, p)
  }

  predicate Accepted(s: Stage) { s.gates != [] && AllPass(s.gates) }

  /** The largest concurrency among the stages whose gates all passed. */
  function HighestAccepted(stages: seq<Stage>): (r: Option<nat>)
    ensures r.Some? ==> exists i :: 0 <= i < |stages| && Accepted(stages[i]) && stages[i].concurrency == r.value
    ensures forall i :: 0 <= i < |stages| && Accepted(stages[i]) ==> r.Some? && stages[i].concurrency <= r.value
  {
    if stages == [] then None
    else
      var last := stages[|stages| - 1];
      var best := HighestAccepted(stages[..|stages| - 1]);
      if !Accepted(last) then best
      else if best.Some? && best.value >= last.concurrency then best
      else Some(last.concurrency)
  }

  function AssessmentOf(stages: seq<Stage>, p: Policy): Assessed {
    if |stages| < 2 then Assessed(NotAssessable, None, None, HighestAccepted(stages), [])
    else
      var first := FirstSignal(stages, |stages|, p);
      var evidence := StepsBelow(stages, |stages|, p);
      match first
      case Some(i) => Assessed(SignalObserved, StepSignal(stages, i, p), Some(stages[i].concurrency), HighestAccepted(stages), evidence)
      case None =>
        Assessed(if SomeGap(stages, |stages|, p) then NotAssessable else NoSignalInTestedStages, None, None, HighestAccepted(stages), evidence)
  }

  lemma {:induction false} GapGrows(stages: seq<Stage>, n: nat, p: Policy)
    requires 1 <= n < |stages|
    ensures SomeGap(stages, n + 1, p) <==> SomeGap(stages, n, p) || StepGap(stages, n, p)
  {
  }

  /** The signal kept after the steps below `n`. */
  function KeptSignal(stages: seq<Stage>, n: nat, p: Policy): Option<(Signal, nat)>
    requires n <= |stages|
  {
    match FirstSignal(stages, n, p)
    case None => None
    case Some(i) => Some((StepSignal(stages, i, p).value, stages[i].concurrency))
  }

  lemma {:induction false} SignalGrows(stages: seq<Stage>, n: nat, p: Policy)
    requires 1 <= n < |stages|
    ensures KeptSignal(stages, n + 1, p)
         == if KeptSignal(stages, n, p).Some? then KeptSignal(stages, n, p)
            else match StepSignal(stages, n, p) case None => None case Some(s) => Some((s, stages[n].concurrency))
  {
  }

  /** One pass over neighbouring stages, keeping the first signal and whether evidence was missing. */
  method Assess(stages: seq<Stage>, p: Policy) returns (r: Assessed)
    ensures r == AssessmentOf(stages, p)
  {
    var highest := HighestAccepted(stages);
    if |stages| < 2 { return Assessed(NotAssessable, None, None, highest, []); }
    var evidence: seq<Evidence> := [];
    var signal: Option<(Signal, nat)> := None;
    var evidenceGap := false;
    for n := 1 to |stages|
      invariant evidence == StepsBelow(stages, n, p)
      invariant signal == KeptSignal(stages, n, p) && evidenceGap == SomeGap(stages, n, p)
    {
      var e := EvidenceOf(stages[0], stages[n - 1], stages[n], p.minimumLatencySamples);
      evidence := evidence + [e];
      var step, gap := LookAt(e, stages[n].summary.errorPercent, p);
      StepsGrow(stages, n, p);
      SignalGrows(stages, n, p);
      GapGrows(stages, n, p);
      if step.Some? && signal.None? { signal := Some((step.value, stages[n].concurrency)); }
      if gap { evidenceGap := true; }
    }
    match signal {
      case Some((s, concurrency)) => r := Assessed(SignalObserved, Some(s), Some(concurrency), highest, evidence);
      case None => r := Assessed(if evidenceGap then NotAssessable else NoSignalInTestedStages, None, None, highest, evidence);
    }
  }

  /** The tests on one pair of stages, in the order of the code. */
  method LookAt(e: Evidence, errorPercent: real, p: Policy) returns (signal: Option<Signal>, gap: bool)
    ensures signal == SignalOf(e, errorPercent, p) && gap == Gap(e, errorPercent, p)
  {
    if e.marginalEfficiency.None? { return None, true; }
    if e.marginalEfficiency.value > p.signalMaxMarginalScalingEfficiencyPercent { return None, false; }
    if errorPercent > p.maxErrorPercent { return Some(PlateauWithErrorRate), false; }
    var hasLatencyEvidence := e.ttftInflation.Some? || e.e2eInflation.Some?;
    if Inflated(e, p) { return Some(PlateauWithLatencyInflation), false; }
    return None, !hasLatencyEvidence;
  }

  // ---- The requested stage ----

  datatype VerificationStatus = NotRequested | Passed | Failed | NotVerifiable
  datatype VerificationReason = StageNotRun | GateNotEvaluable
  datatype Verification = Verification(requested: Option<nat>, status: VerificationStatus, reason: Option<VerificationReason>)

  function FindStage(stages: seq<Stage>, concurrency: nat): (r: Option<nat>)
    ensures r.Some? ==> r.value < |stages| && stages[r.value].concurrency == concurrency
    ensures r.None? ==> forall i :: 0 <= i < |stages| ==> stages[i].concurrency != concurrency
  {
    if stages == [] then None
    else if stages[0].concurrency == concurrency then Some(0)
    else match FindStage(stages[1..], concurrency) case None => None case Some(i) => Some(i + 1)
  }

  function Verify(requested: Option<nat>, stages: seq<Stage>): Verification {
    if requested.None? then Verification(None, NotRequested, None)
    else match FindStage(stages, requested.value)
      case None => Verification(requested, NotVerifiable, Some(StageNotRun))
      case Some(i) =>
        if SomeGate(stages[i].gates, Fail) then Verification(requested, Failed, None)
        else if SomeGate(stages[i].gates, NotEvaluable) then Verification(requested, NotVerifiable, Some(GateNotEvaluable))
        else Verification(requested, Passed, None)
  }

  /** With distinct concurrencies a requested stage passes iff it ran and each of its gates passed. */
  lemma {:induction false} VerifyPassesIff(concurrency: nat, stages: seq<Stage>)
    requires forall i, j :: 0 <= i < j < |stages| ==> stages[i].concurrency != stages[j].concurrency
    ensures Verify(Some(concurrency), stages).status == Passed
       <==> exists i :: 0 <= i < |stages| && stages[i].concurrency == concurrency && AllPass(stages[i].gates)
  {
    var found := FindStage(stages, concurrency);
    if found.Some? {
      var gates := stages[found.value].gates;
      assert AllPass(gates) <==> !SomeGate(gates, Fail) && !SomeGate(gates, NotEvaluable) by {
        forall i | 0 <= i < |gates| ensures gates[i].status == Pass || gates[i].status == Fail || gates[i].status == NotEvaluable {}
      }
    }
  }
}
