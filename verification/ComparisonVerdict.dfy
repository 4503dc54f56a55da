/** When a comparison passes, in terms of the requests behind the two reports, and what a report says of
    itself. */
module ComparisonVerdict {
  import opened Common
  import A = Admission
  import C = StageComparison
  import opened SaturationCompare
  import G = StageSummary
  import L = Ladder
  import S = SavedReport
  import opened Target
  import V = LadderVerdict
  import W = StageVerdict

  // ---- Gate by gate ----

  predicate Clear(gates: seq<Gate>) { !HasStatus(gates, GateFail) && !HasStatus(gates, GateNotEvaluable) }

  lemma {:induction false} StatusOfFive(v: seq<Gate>, w: seq<Gate>, x: seq<Gate>, y: seq<Gate>, z: seq<Gate>, status: GateStatus)
    ensures HasStatus(v + w + x + y + z, status)
       <==> HasStatus(v, status) || HasStatus(w, status) || HasStatus(x, status) || HasStatus(y, status) || HasStatus(z, status)
  {
    StatusInAppend(v, w, status);
    StatusInAppend(v + w, x, status);
    StatusInAppend(v + w + x, y, status);
    StatusInAppend(v + w + x + y, z, status);
  }

  /** A list of at most one gate is clear iff the comparison can be made and holds, and fails iff it can
      be made and does not hold. */
  predicate Decides(gates: seq<Gate>, configured: bool, comparable: bool, within: bool) {
    && (Clear(gates) <==> (configured ==> comparable && within))
    && (HasStatus(gates, GateFail) <==> configured && comparable && !within)
  }

  lemma {:induction false} CeilingDecides(kind: GateKind, o: Observation, t: Option<real>, comparable: bool, within: bool)
    requires t.Some? ==> C.Says(o, o.Observed? && NotAbove(o.value, t.value), comparable, within)
    ensures Decides(Ceiling(kind, o, t), t.Some?, comparable, within)
  {
    if t.Some? {
      OneGate(Ceiling(kind, o, t)[0], GateFail);
      OneGate(Ceiling(kind, o, t)[0], GateNotEvaluable);
    }
  }

  lemma {:induction false} FloorDecides(kind: GateKind, o: Observation, t: Option<real>, comparable: bool, within: bool)
    requires t.Some? ==> C.Says(o, o.Observed? && AtLeast(o.value, t.value), comparable, within)
    ensures Decides(Floor(kind, o, t), t.Some?, comparable, within)
  {
    if t.Some? {
      OneGate(Floor(kind, o, t)[0], GateFail);
      OneGate(Floor(kind, o, t)[0], GateNotEvaluable);
    }
  }

  /** What the gates need to know of the evidence of a stage. */
  ghost predicate Faithful(e: Evidence, s: L.Stage, maxTokens: nat) {
    && C.Counted(e, s) && C.TokensCounted(e, s, maxTokens) && s.durationNs >= 1
    && C.Timed(e.p95TtftMs, e.ttftSamples, G.Measured(s.attempts, G.TtftOf))
    && C.Timed(e.p95E2eMs, e.e2eSamples, G.Measured(s.attempts, G.E2eOf))
  }

  lemma {:induction false} EvidenceIsFaithful(s: L.Stage, maxTokens: nat)
    requires C.Honest(s, maxTokens)
    ensures Faithful(EvidenceOf(s), s, maxTokens)
  {
    C.IsCounted(s, maxTokens);
    C.TokensAreCounted(s, maxTokens);
    C.IsTimed(s.summary.ttftMs, G.Measured(s.attempts, G.TtftOf));
    C.IsTimed(s.summary.e2eMs, G.Measured(s.attempts, G.E2eOf));
  }

  lemma {:induction false} TtftDecides(b: L.Stage, c: L.Stage, x: Evidence, y: Evidence, maxTokens: nat, t: Option<real>)
    requires Faithful(x, b, maxTokens) && Faithful(y, c, maxTokens)
    ensures Decides(Ceiling(TtftRegression, LatencyRegression(x, y, x.p95TtftMs, y.p95TtftMs, x.ttftSamples, y.ttftSamples), t), t.Some?,
                    C.LatencyComparable(b, c, G.TtftOf), t.Some? && C.LatencyWithin(b, c, G.TtftOf, t.value))
  {
    var o := LatencyRegression(x, y, x.p95TtftMs, y.p95TtftMs, x.ttftSamples, y.ttftSamples);
    if t.Some? { C.LatencySays(b, c, G.TtftOf, x, y, x.p95TtftMs, y.p95TtftMs, x.ttftSamples, y.ttftSamples, t.value); }
    CeilingDecides(TtftRegression, o, t, C.LatencyComparable(b, c, G.TtftOf), t.Some? && C.LatencyWithin(b, c, G.TtftOf, t.value));
  }

  lemma {:induction false} E2eDecides(b: L.Stage, c: L.Stage, x: Evidence, y: Evidence, maxTokens: nat, t: Option<real>)
    requires Faithful(x, b, maxTokens) && Faithful(y, c, maxTokens)
    ensures Decides(Ceiling(E2eRegression, LatencyRegression(x, y, x.p95E2eMs, y.p95E2eMs, x.e2eSamples, y.e2eSamples), t), t.Some?,
                    C.LatencyComparable(b, c, G.E2eOf), t.Some? && C.LatencyWithin(b, c, G.E2eOf, t.value))
  {
    var o := LatencyRegression(x, y, x.p95E2eMs, y.p95E2eMs, x.e2eSamples, y.e2eSamples);
    if t.Some? { C.LatencySays(b, c, G.E2eOf, x, y, x.p95E2eMs, y.p95E2eMs, x.e2eSamples, y.e2eSamples, t.value); }
    CeilingDecides(E2eRegression, o, t, C.LatencyComparable(b, c, G.E2eOf), t.Some? && C.LatencyWithin(b, c, G.E2eOf, t.value));
  }

  lemma {:induction false} RatesDecide(b: L.Stage, c: L.Stage, x: Evidence, y: Evidence, maxTokens: nat, p: Policy)
    requires Faithful(x, b, maxTokens) && Faithful(y, c, maxTokens)
    ensures Decides(Floor(RpsRatio, RpsRatioOf(x, y), p.minRpsRatio), p.minRpsRatio.Some?,
                    C.RatesComparable(b, c), p.minRpsRatio.Some? && C.RateWithin(b, c, p.minRpsRatio.value))
    ensures Decides(Floor(GoodputRatio, GoodputRatioOf(x, y), p.minGoodputRatio), p.minGoodputRatio.Some?,
                    C.TokensComparable(b, c, maxTokens), p.minGoodputRatio.Some? && C.GoodputWithin(b, c, maxTokens, p.minGoodputRatio.value))
  {
    if p.minRpsRatio.Some? { C.RatesSay(b, c, x, y, p.minRpsRatio.value); }
    if p.minGoodputRatio.Some? { C.GoodputSays(b, c, maxTokens, x, y, p.minGoodputRatio.value); }
    FloorDecides(RpsRatio, RpsRatioOf(x, y), p.minRpsRatio,
                 C.RatesComparable(b, c), p.minRpsRatio.Some? && C.RateWithin(b, c, p.minRpsRatio.value));
    FloorDecides(GoodputRatio, GoodputRatioOf(x, y), p.minGoodputRatio,
                 C.TokensComparable(b, c, maxTokens), p.minGoodputRatio.Some? && C.GoodputWithin(b, c, maxTokens, p.minGoodputRatio.value));
  }

  lemma {:induction false} ErrorsDecide(b: L.Stage, c: L.Stage, x: Evidence, y: Evidence, t: Option<real>)
    requires C.Counted(x, b) && C.Counted(y, c)
    ensures Decides(Ceiling(ErrorIncrease, ErrorIncreaseOf(x, y), t), t.Some?, C.Enough(b, c), t.Some? && C.ErrorsWithin(b, c, t.value))
  {
    if t.Some? { C.ErrorsSay(b, c, x, y, t.value); }
    CeilingDecides(ErrorIncrease, ErrorIncreaseOf(x, y), t, C.Enough(b, c), t.Some? && C.ErrorsWithin(b, c, t.value));
  }

  /** The gates of two stages are clear iff the candidate keeps up, and one fails iff it falls behind. */
  lemma {:induction false} GatesDecide(b: L.Stage, c: L.Stage, x: Evidence, y: Evidence, maxTokens: nat, p: Policy)
    requires Faithful(x, b, maxTokens) && Faithful(y, c, maxTokens)
    ensures Clear(GatesOf(x, y, p)) <==> C.KeepsUp(b, c, maxTokens, p)
    ensures HasStatus(GatesOf(x, y, p), GateFail) <==> C.FallsBehind(b, c, maxTokens, p)
  {
    TtftDecides(b, c, x, y, maxTokens, p.maxP95TtftRegressionPercent);
    E2eDecides(b, c, x, y, maxTokens, p.maxP95E2eRegressionPercent);
    RatesDecide(b, c, x, y, maxTokens, p);
    ErrorsDecide(b, c, x, y, p.maxErrorIncreasePoints);
    var ttft := LatencyRegression(x, y, x.p95TtftMs, y.p95TtftMs, x.ttftSamples, y.ttftSamples);
    var e2e := LatencyRegression(x, y, x.p95E2eMs, y.p95E2eMs, x.e2eSamples, y.e2eSamples);
    FiveDecide(Ceiling(TtftRegression, ttft, p.maxP95TtftRegressionPercent), Ceiling(E2eRegression, e2e, p.maxP95E2eRegressionPercent),
               Floor(RpsRatio, RpsRatioOf(x, y), p.minRpsRatio), Floor(GoodputRatio, GoodputRatioOf(x, y), p.minGoodputRatio),
               Ceiling(ErrorIncrease, ErrorIncreaseOf(x, y), p.maxErrorIncreasePoints));
  }

  lemma {:induction false} FiveDecide(v: seq<Gate>, w: seq<Gate>, x: seq<Gate>, y: seq<Gate>, z: seq<Gate>)
    ensures Clear(v + w + x + y + z) <==> Clear(v) && Clear(w) && Clear(x) && Clear(y) && Clear(z)
    ensures HasStatus(v + w + x + y + z, GateFail)
       <==> HasStatus(v, GateFail) || HasStatus(w, GateFail) || HasStatus(x, GateFail) || HasStatus(y, GateFail) || HasStatus(z, GateFail)
  {
    StatusOfFive(v, w, x, y, z, GateFail);
    StatusOfFive(v, w, x, y, z, GateNotEvaluable);
  }

  // ---- What a gate shows ----

  predicate IsCeiling(kind: GateKind) { kind == TtftRegression || kind == E2eRegression || kind == ErrorIncrease }

  /** A gate observes something or gives a reason for not deciding; one that observes passes iff what it
      observes is at most its threshold, or for a floor at least, give or take a billionth. */
  predicate IsSound(g: Gate) {
    && (g.status == GateNotEvaluable <==> g.observed.None?) && (g.status == GateNotEvaluable <==> g.reason.Some?)
    && (g.observed.Some? ==>
          (g.status == GatePass <==> if IsCeiling(g.kind) then C.NearlyAtMost(g.observed.value, g.threshold, 1.0)
                                     else C.NearlyAtMost(g.threshold, g.observed.value, 1.0)))
  }

  /** The setting behind a kind of gate. */
  function SettingOf(kind: GateKind, p: Policy): Option<real> {
    match kind
    case TtftRegression => p.maxP95TtftRegressionPercent
    case E2eRegression => p.maxP95E2eRegressionPercent
    case RpsRatio => p.minRpsRatio
    case GoodputRatio => p.minGoodputRatio
    case ErrorIncrease => p.maxErrorIncreasePoints
  }

  ghost predicate AllShow(gates: seq<Gate>, p: Policy) { forall g :: g in gates ==> IsSound(g) && SettingOf(g.kind, p) == Some(g.threshold) }

  predicate HasKind(gates: seq<Gate>, kind: GateKind) { exists g | g in gates :: g.kind == kind }

  lemma {:induction false} CeilingShows(kind: GateKind, o: Observation, p: Policy, gates: seq<Gate>)
    requires IsCeiling(kind) && gates == Ceiling(kind, o, SettingOf(kind, p))
    ensures AllShow(gates, p) && forall k :: HasKind(gates, k) <==> SettingOf(kind, p).Some? && k == kind
  {
    if gates != [] {
      if o.Observed? { C.ToleranceMeans(o.value, SettingOf(kind, p).value); }
      assert gates[0] in gates;
    }
  }

  lemma {:induction false} FloorShows(kind: GateKind, o: Observation, p: Policy, gates: seq<Gate>)
    requires !IsCeiling(kind) && gates == Floor(kind, o, SettingOf(kind, p))
    ensures AllShow(gates, p) && forall k :: HasKind(gates, k) <==> SettingOf(kind, p).Some? && k == kind
  {
    if gates != [] {
      if o.Observed? { C.ToleranceMeans(o.value, SettingOf(kind, p).value); }
      assert gates[0] in gates;
    }
  }

  lemma {:induction false} AppendShows(a: seq<Gate>, b: seq<Gate>, p: Policy)
    requires AllShow(a, p) && AllShow(b, p)
    ensures AllShow(a + b, p) && forall k :: HasKind(a + b, k) <==> HasKind(a, k) || HasKind(b, k)
  {
    forall g ensures g in a + b <==> g in a || g in b {}
  }

  /** Every gate of a comparison is sound, and there is one of a kind, with its threshold, iff that is set. */
  lemma {:induction false} GatesShow(b: Evidence, c: Evidence, p: Policy)
    ensures AllShow(GatesOf(b, c, p), p)
    ensures forall kind :: HasKind(GatesOf(b, c, p), kind) <==> SettingOf(kind, p).Some?
  {
    var ttft := LatencyRegression(b, c, b.p95TtftMs, c.p95TtftMs, b.ttftSamples, c.ttftSamples);
    var e2e := LatencyRegression(b, c, b.p95E2eMs, c.p95E2eMs, b.e2eSamples, c.e2eSamples);
    var v, w := Ceiling(TtftRegression, ttft, p.maxP95TtftRegressionPercent), Ceiling(E2eRegression, e2e, p.maxP95E2eRegressionPercent);
    var x, y := Floor(RpsRatio, RpsRatioOf(b, c), p.minRpsRatio), Floor(GoodputRatio, GoodputRatioOf(b, c), p.minGoodputRatio);
    var z := Ceiling(ErrorIncrease, ErrorIncreaseOf(b, c), p.maxErrorIncreasePoints);
    CeilingShows(TtftRegression, ttft, p, v);
    CeilingShows(E2eRegression, e2e, p, w);
    FloorShows(RpsRatio, RpsRatioOf(b, c), p, x);
    FloorShows(GoodputRatio, GoodputRatioOf(b, c), p, y);
    CeilingShows(ErrorIncrease, ErrorIncreaseOf(b, c), p, z);
    AppendShows(v, w, p);
    AppendShows(v + w, x, p);
    AppendShows(v + w + x, y, p);
    AppendShows(v + w + x + y, z, p);
    forall kind ensures HasKind(GatesOf(b, c, p), kind) <==> SettingOf(kind, p).Some? {
      match kind case TtftRegression => case E2eRegression => case RpsRatio => case GoodputRatio => case ErrorIncrease =>
    }
  }

  // ---- Stage by stage ----

  /** Enough attempts, and they meet the policy of the report. */
  ghost predicate Sound(s: L.Stage, r: S.Report) {
    |s.attempts| >= 20 && V.MeetsPolicy(s, r.plan.maxTokens, r.policy)
  }

  /** Enough attempts, and they violate it. */
  ghost predicate Unsound(s: L.Stage, r: S.Report) {
    |s.attempts| >= 20 && W.Violates(s.attempts, s.durationNs, r.plan.maxTokens, r.policy)
  }

  lemma {:induction false} PolicyStatusMeans(s: L.Stage)
    requires s.summary.attempted == |s.attempts|
    ensures StagePolicyStatus(s) == PolicyPass <==> |s.attempts| >= 20 && G.AllPass(s.gates)
    ensures StagePolicyStatus(s) == PolicyFail <==> |s.attempts| >= 20 && G.SomeGate(s.gates, G.Fail)
  {
    assert G.AllPass(s.gates) <==> !G.SomeGate(s.gates, G.Fail) && !G.SomeGate(s.gates, G.NotEvaluable) by {
      forall i | 0 <= i < |s.gates| ensures s.gates[i].status == G.Pass || s.gates[i].status == G.Fail || s.gates[i].status == G.NotEvaluable {}
    }
  }

  lemma {:induction false} AttemptedAre(s: L.Stage, concurrency: nat, r: S.Report)
    requires V.Tells(s, concurrency, r.plan.maxTokens, r.policy) && r.plan.maxTokens <= A.MAX_COMPLETION_TOKENS
    ensures s.summary.attempted == |s.attempts| && C.Honest(s, r.plan.maxTokens)
  {
  }

  lemma {:induction false} PolicyStatusIff(r: S.Report, i: nat)
    requires S.ValidEvidence(r) && i < |r.out.stages|
    ensures StagePolicyStatus(r.out.stages[i]) == PolicyPass <==> Sound(r.out.stages[i], r)
    ensures StagePolicyStatus(r.out.stages[i]) == PolicyFail <==> Unsound(r.out.stages[i], r)
    ensures C.Honest(r.out.stages[i], r.plan.maxTokens)
  {
    V.SavedStageTells(r, i);
    V.AcceptedReportTells(r);
    AttemptedAre(r.out.stages[i], r.plan.concurrencyStages[i], r);
    PolicyStatusMeans(r.out.stages[i]);
    V.AcceptedMeans(r.out.stages[i], r.plan.concurrencyStages[i], r.plan.maxTokens, r.policy);
    V.GatesTell(r.out.stages[i], r.plan.concurrencyStages[i], r.plan.maxTokens, r.policy);
  }

  /** Both sides are sound at this position, and the candidate keeps up. */
  ghost predicate StageHolds(b: S.Report, c: S.Report, i: nat, p: Policy)
    requires i < |b.out.stages| && i < |c.out.stages|
  {
    && Sound(b.out.stages[i], b) && Sound(c.out.stages[i], c)
    && C.KeepsUp(b.out.stages[i], c.out.stages[i], b.plan.maxTokens, p)
  }

  /** The baseline is sound at this position and the candidate is not, or the candidate falls behind. */
  ghost predicate StageRegresses(b: S.Report, c: S.Report, i: nat, p: Policy)
    requires i < |b.out.stages| && i < |c.out.stages|
  {
    || (Sound(b.out.stages[i], b) && Unsound(c.out.stages[i], c))
    || C.FallsBehind(b.out.stages[i], c.out.stages[i], b.plan.maxTokens, p)
  }

  predicate RowPasses(r: Row) { !RowRegresses(r) && !RowUndecided(r) }

  lemma {:induction false} RowIs(b: L.Stage, c: L.Stage, p: Policy)
    ensures var r := CompareStage(b, c, p);
      && (RowPasses(r) <==> StagePolicyStatus(b) == PolicyPass && StagePolicyStatus(c) == PolicyPass && Clear(GatesOf(EvidenceOf(b), EvidenceOf(c), p)))
      && (RowRegresses(r) <==> (StagePolicyStatus(b) == PolicyPass && StagePolicyStatus(c) == PolicyFail)
                               || HasStatus(GatesOf(EvidenceOf(b), EvidenceOf(c), p), GateFail))
  {
  }

  lemma {:induction false} RowDecidedBy(b: S.Report, c: S.Report, i: nat, p: Policy)
    requires S.ValidEvidence(b) && S.ValidEvidence(c) && i < |b.out.stages| && i < |c.out.stages| && b.plan == c.plan
    ensures RowPasses(CompareStage(b.out.stages[i], c.out.stages[i], p)) <==> StageHolds(b, c, i, p)
    ensures RowRegresses(CompareStage(b.out.stages[i], c.out.stages[i], p)) <==> StageRegresses(b, c, i, p)
  {
    var x, y, most := b.out.stages[i], c.out.stages[i], b.plan.maxTokens;
    PolicyStatusIff(b, i);
    PolicyStatusIff(c, i);
    EvidenceIsFaithful(x, most);
    EvidenceIsFaithful(y, most);
    GatesDecide(x, y, EvidenceOf(x), EvidenceOf(y), most, p);
    RowIs(x, y, p);
  }

  lemma {:induction false} StatusIs(rows: seq<Row>)
    ensures StatusOf(true, rows) == Pass <==> forall i :: 0 <= i < |rows| ==> RowPasses(rows[i])
    ensures StatusOf(true, rows) == Regression <==> exists i :: 0 <= i < |rows| && RowRegresses(rows[i])
  {
  }

  ghost predicate AllStagesHold(b: S.Report, c: S.Report, p: Policy) {
    |b.out.stages| == |c.out.stages| && forall i: nat :: i < |b.out.stages| ==> StageHolds(b, c, i, p)
  }

  ghost predicate SomeStageRegresses(b: S.Report, c: S.Report, p: Policy) {
    exists i: nat :: i < |b.out.stages| && i < |c.out.stages| && StageRegresses(b, c, i, p)
  }

  /** Each row says what the two stages at its position say. */
  ghost predicate RowsTell(b: S.Report, c: S.Report, p: Policy, rows: seq<Row>) {
    && |rows| == |b.out.stages| == |c.out.stages|
    && forall i: nat :: i < |rows| ==>
         (RowPasses(rows[i]) <==> StageHolds(b, c, i, p)) && (RowRegresses(rows[i]) <==> StageRegresses(b, c, i, p))
  }

  lemma {:induction false} RowsDoTell(b: S.Report, c: S.Report, p: Policy)
    requires S.ValidEvidence(b) && S.ValidEvidence(c) && |b.out.stages| == |c.out.stages| && b.plan == c.plan
    ensures RowsTell(b, c, p, CompareStages(b.out.stages, c.out.stages, p))
  {
    var rows := CompareStages(b.out.stages, c.out.stages, p);
    forall i: nat | i < |rows|
      ensures (RowPasses(rows[i]) <==> StageHolds(b, c, i, p)) && (RowRegresses(rows[i]) <==> StageRegresses(b, c, i, p))
    {
      RowDecidedBy(b, c, i, p);
    }
  }

  lemma {:induction false} RowsDecide(b: S.Report, c: S.Report, p: Policy, rows: seq<Row>)
    requires RowsTell(b, c, p, rows)
    ensures StatusOf(true, rows) == Pass <==> AllStagesHold(b, c, p)
    ensures StatusOf(true, rows) == Regression <==> SomeStageRegresses(b, c, p)
  {
    StatusIs(rows);
    if SomeStageRegresses(b, c, p) {
      var i: nat :| i < |b.out.stages| && StageRegresses(b, c, i, p);
      assert RowRegresses(rows[i]);
    }
  }

  lemma {:induction false} ComparisonIs(b: S.Report, c: S.Report, p: Policy, web: Web)
    requires ValidPolicy(p)
    ensures Compare(b, c, p, web).Some?
    ensures !SameTest(b, c, web) ==> Compare(b, c, p, web).value.status == NotEvaluable
    ensures SameTest(b, c, web) ==> Compare(b, c, p, web).value.status == StatusOf(true, CompareStages(b.out.stages, c.out.stages, p))
  {
    CompatibleIff(b, c, web);
  }

  lemma {:induction false} SameTestDecides(b: S.Report, c: S.Report, p: Policy, web: Web)
    requires SameTest(b, c, web)
    ensures StatusOf(true, CompareStages(b.out.stages, c.out.stages, p)) == Pass <==> AllStagesHold(b, c, p)
    ensures StatusOf(true, CompareStages(b.out.stages, c.out.stages, p)) == Regression <==> SomeStageRegresses(b, c, p)
  {
    CompleteReportHasAllStages(b);
    CompleteReportHasAllStages(c);
    RowsDoTell(b, c, p);
    RowsDecide(b, c, p, CompareStages(b.out.stages, c.out.stages, p));
  }

  /** A comparison passes iff the reports are of the same test and at every concurrency both sides have
      at least twenty attempts that meet the policy and the candidate keeps up in all that is asked. */
  lemma {:induction false} ComparisonPassesIff(b: S.Report, c: S.Report, p: Policy, web: Web)
    requires ValidPolicy(p)
    ensures Compare(b, c, p, web).Some?
    ensures Compare(b, c, p, web).value.status == Pass <==> SameTest(b, c, web) && AllStagesHold(b, c, p)
  {
    ComparisonIs(b, c, p, web);
    if SameTest(b, c, web) { SameTestDecides(b, c, p, web); }
  }

  /** It is a regression iff the reports are of the same test and at some concurrency the candidate falls
      behind, or violates the policy that the baseline meets. */
  lemma {:induction false} ComparisonRegressesIff(b: S.Report, c: S.Report, p: Policy, web: Web)
    requires ValidPolicy(p)
    ensures Compare(b, c, p, web).Some?
    ensures Compare(b, c, p, web).value.status == Regression <==> SameTest(b, c, web) && SomeStageRegresses(b, c, p)
  {
    ComparisonIs(b, c, p, web);
    if SameTest(b, c, web) { SameTestDecides(b, c, p, web); }
  }

  // ---- A report against itself ----

  /** More is asked for than a ratio of one gives, by more than the relative tolerance. */
  predicate AboveOne(floor: Option<real>) { floor.Some? && floor.value > 1.0 + floor.value * 0.000_000_001 }

  lemma {:induction false} OneMisses(floor: real)
    requires floor >= 0.0
    ensures AtLeast(1.0, floor) <==> !AboveOne(Some(floor))
  {
  }

  lemma {:induction false} OwnRatio(x: real)
    requires x > 0.0
    ensures x / x == 1.0
  {
  }

  lemma {:induction false} NoCeilingFails(kind: GateKind, o: Observation, t: Option<real>)
    requires NonNegative(t) && (o.Observed? ==> o.value == 0.0)
    ensures !HasStatus(Ceiling(kind, o, t), GateFail)
  {
    if t.Some? { OneGate(Ceiling(kind, o, t)[0], GateFail); }
  }

  lemma {:induction false} FloorFailsIff(kind: GateKind, o: Observation, t: Option<real>)
    requires NonNegative(t) && (o.Observed? ==> o.value == 1.0)
    ensures HasStatus(Floor(kind, o, t), GateFail) <==> o.Observed? && AboveOne(t)
  {
    if t.Some? {
      OneGate(Floor(kind, o, t)[0], GateFail);
      OneMisses(t.value);
    }
  }

  lemma {:induction false} OwnObservations(e: Evidence, p95: Option<real>, samples: nat)
    ensures var o := LatencyRegression(e, e, p95, p95, samples, samples); o.Observed? ==> o.value == 0.0
    ensures RpsRatioOf(e, e).Observed? ==> RpsRatioOf(e, e).value == 1.0
    ensures GoodputRatioOf(e, e).Observed? ==> GoodputRatioOf(e, e).value == 1.0
    ensures ErrorIncreaseOf(e, e).Observed? ==> ErrorIncreaseOf(e, e).value == 0.0
  {
    if p95.Some? && p95.value > 0.0 { OwnRatio(p95.value); }
    if e.rps > 0.0 { OwnRatio(e.rps); }
    if e.goodput.Some? && e.goodput.value > 0.0 { OwnRatio(e.goodput.value); }
  }

  /** A ratio to itself can be taken, and its floor is above one. */
  predicate FloorMissed(e: Evidence, p: Policy) {
    (RpsRatioOf(e, e).Observed? && AboveOne(p.minRpsRatio)) || (GoodputRatioOf(e, e).Observed? && AboveOne(p.minGoodputRatio))
  }

  lemma {:induction false} OwnGateFailsIff(e: Evidence, p: Policy)
    requires ValidPolicy(p)
    ensures HasStatus(GatesOf(e, e, p), GateFail) <==> FloorMissed(e, p)
  {
    var ttft := LatencyRegression(e, e, e.p95TtftMs, e.p95TtftMs, e.ttftSamples, e.ttftSamples);
    var e2e := LatencyRegression(e, e, e.p95E2eMs, e.p95E2eMs, e.e2eSamples, e.e2eSamples);
    OwnObservations(e, e.p95TtftMs, e.ttftSamples);
    OwnObservations(e, e.p95E2eMs, e.e2eSamples);
    var v, w := Ceiling(TtftRegression, ttft, p.maxP95TtftRegressionPercent), Ceiling(E2eRegression, e2e, p.maxP95E2eRegressionPercent);
    var x, y := Floor(RpsRatio, RpsRatioOf(e, e), p.minRpsRatio), Floor(GoodputRatio, GoodputRatioOf(e, e), p.minGoodputRatio);
    var z := Ceiling(ErrorIncrease, ErrorIncreaseOf(e, e), p.maxErrorIncreasePoints);
    NoCeilingFails(TtftRegression, ttft, p.maxP95TtftRegressionPercent);
    NoCeilingFails(E2eRegression, e2e, p.maxP95E2eRegressionPercent);
    FloorFailsIff(RpsRatio, RpsRatioOf(e, e), p.minRpsRatio);
    FloorFailsIff(GoodputRatio, GoodputRatioOf(e, e), p.minGoodputRatio);
    NoCeilingFails(ErrorIncrease, ErrorIncreaseOf(e, e), p.maxErrorIncreasePoints);
    StatusInAppend(v, w, GateFail);
    StatusInAppend(v + w, x, GateFail);
    StatusInAppend(v + w + x, y, GateFail);
    StatusInAppend(v + w + x + y, z, GateFail);
  }

  ghost predicate SomeFloorMissed(r: S.Report, p: Policy) {
    exists i: nat :: i < |r.out.stages| && FloorMissed(EvidenceOf(r.out.stages[i]), p)
  }

  lemma {:induction false} OwnRowRegressesIff(s: L.Stage, p: Policy)
    requires ValidPolicy(p)
    ensures RowRegresses(CompareStage(s, s, p)) <==> FloorMissed(EvidenceOf(s), p)
  {
    OwnGateFailsIff(EvidenceOf(s), p);
  }

  lemma {:induction false} OwnRowsRegressIff(r: S.Report, p: Policy)
    requires ValidPolicy(p)
    ensures StatusOf(true, CompareStages(r.out.stages, r.out.stages, p)) == Regression <==> SomeFloorMissed(r, p)
  {
    var stages := r.out.stages;
    var rows := CompareStages(stages, stages, p);
    forall i: nat | i < |rows| ensures RowRegresses(rows[i]) <==> FloorMissed(EvidenceOf(stages[i]), p) {
      assert rows[i] == CompareStage(stages[i], stages[i], p);
      OwnRowRegressesIff(stages[i], p);
    }
    if SomeFloorMissed(r, p) {
      var i: nat :| i < |stages| && FloorMissed(EvidenceOf(stages[i]), p);
      assert RowRegresses(rows[i]);
    }
  }

  lemma {:induction false} SameAsItself(r: S.Report, web: Web)
    ensures SameTest(r, r, web) <==> S.ValidReport(r, web) && r.status == S.RunComplete
  {
  }

  /** A report compared with itself is a regression iff it is intact and complete and a ratio floor
      above one, tolerance included, meets a stage at which that ratio can be taken. */
  lemma {:induction false} OwnRegressionIff(r: S.Report, p: Policy, web: Web)
    requires ValidPolicy(p)
    ensures Compare(r, r, p, web).Some?
    ensures Compare(r, r, p, web).value.status == Regression
       <==> S.ValidReport(r, web) && r.status == S.RunComplete && SomeFloorMissed(r, p)
  {
    SameAsItself(r, web);
    CompatibleIff(r, r, web);
    OwnRowsRegressIff(r, p);
  }

  /** So without a ratio floor above one no report is a regression against itself. */
  lemma {:induction false} NoRegressionAgainstItself(r: S.Report, p: Policy, web: Web)
    requires ValidPolicy(p) && !AboveOne(p.minRpsRatio) && !AboveOne(p.minGoodputRatio)
    ensures Compare(r, r, p, web).Some? && Compare(r, r, p, web).value.status != Regression
  {
    OwnRegressionIff(r, p, web);
  }
}
