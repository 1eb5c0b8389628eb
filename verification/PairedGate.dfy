/** The paired gate's report and decision, and the adjudicator that checks a PASS report. */
module PairedGate {
  import opened Basics
  import opened RoundedStatistics
  import CR = ChunkRemap
  import RM = RankingMetrics

  /** The two experiments differ in what they observe and in the drop of recall they allow: 0.01 for decomposition, none
      for route coverage. */
  datatype Spec = Spec(isRouteCoverage: bool, recallDropMax: real)

  // ---------------------------------------------------------------- what a run observed

  /** Recall and nDCG of one case, and whether it was two-sided. */
  datatype TargetScore = TargetScore(recall: real, ndcg: real, twoSided: bool)

  datatype CanaryCategory = Answerable | NoEvidence | Forbidden

  datatype CanaryCase = CanaryCase(category: CanaryCategory, passed: bool)

  datatype VariableStatus = Applied | Fallback | Disabled

  datatype VariableObservation = VariableObservation(status: VariableStatus, changed: bool)

  /** Whether each arm answered NO_EVIDENCE with no candidate. */
  datatype NoEvidenceCase = NoEvidenceCase(control: bool, treatment: bool)

  datatype Cleanup = Cleanup(passed: bool, scheduledVersions: nat, jobsSucceeded: nat, jobsExpected: nat,
                             failedClosed: bool, deletedApiStatus: Option<nat>)

  datatype GateRun = GateRun(
    controlTargets: seq<TargetScore>, treatmentTargets: seq<TargetScore>, targetObservations: seq<VariableObservation>,
    controlRecall3: seq<real>, treatmentRecall3: seq<real>, controlNdcg10: seq<real>, treatmentNdcg10: seq<real>,
    noEvidence: seq<NoEvidenceCase>, canary: seq<CanaryCase>,
    controlLatency: seq<real>, treatmentLatency: seq<real>, variableLatency: seq<real>,
    readyDocuments: nat, runtimeChunks: nat, versions: nat, cleanupSucceeded: seq<bool>, deletedIs403: bool, failedClosed: bool)

  // ---------------------------------------------------------------- the report

  datatype Arm = Arm(strict: nat, total: nat, recall: real, ndcg: real)

  datatype Gains = Gains(strict: real, recall: real, ndcg: real)

  datatype NonRegression = NonRegression(caseCount: nat, controlRecall: real, treatmentRecall: real,
                                         recallDrop: real, recallDropMax: real,
                                         controlNdcg: real, treatmentNdcg: real, ndcgDrop: real, ndcgDropMax: real)

  datatype NoEvidenceSummary = NoEvidenceSummary(caseCount: nat, control: nat, treatment: nat, noWorse: bool)

  datatype CanarySummary = CanarySummary(passed: nat, total: nat, answerable: nat,
                                         noEvidence: nat, forbidden: nat, exactBoundary: bool)

  datatype Cost = Cost(samples: nat, controlP95: real, treatmentP95: real, incrementalP95: real, incrementalLimit: real,
                       variableP95: real, variableLimit: real)

  datatype ObservationSummary = ObservationSummary(count: nat, applied: nat, fallback: nat, disabled: nat, changed: nat)

  datatype Report = Report(pass: bool, control: Arm, treatment: Arm, gains: Gains, nonRegression: NonRegression,
                           noEvidence: NoEvidenceSummary, canary: CanarySummary, cost: Cost, observations: ObservationSummary,
                           readyDocuments: nat, runtimeChunks: nat, cleanup: Cleanup)

  function Count<T>(s: seq<T>, p: T -> bool): nat {
    if s == [] then 0 else Count(s[..|s| - 1], p) + if p(s[|s| - 1]) then 1 else 0
  }

  function Project(s: seq<TargetScore>, f: TargetScore -> real): (r: seq<real>)
    ensures |r| == |s|
  {
    seq(|s|, i requires 0 <= i < |s| => f(s[i]))
  }

  predicate IsTwoSided(t: TargetScore) { t.twoSided }
  function RecallOf(t: TargetScore): real { t.recall }
  function NdcgOf(t: TargetScore): real { t.ndcg }
  predicate IsApplied(o: VariableObservation) { o.status == Applied }
  predicate IsFallback(o: VariableObservation) { o.status == Fallback }
  predicate IsDisabled(o: VariableObservation) { o.status == Disabled }
  predicate IsChanged(o: VariableObservation) { o.changed }
  predicate CasePassed(c: CanaryCase) { c.passed }
  predicate PassedAnswerable(c: CanaryCase) { c.passed && c.category == Answerable }
  predicate PassedNoEvidence(c: CanaryCase) { c.passed && c.category == NoEvidence }
  predicate PassedForbidden(c: CanaryCase) { c.passed && c.category == Forbidden }
  predicate IsAnswerable(c: CanaryCase) { c.category == Answerable }
  predicate IsNoEvidence(c: CanaryCase) { c.category == NoEvidence }
  predicate IsForbidden(c: CanaryCase) { c.category == Forbidden }
  predicate ControlEmpty(c: NoEvidenceCase) { c.control }
  predicate TreatmentEmpty(c: NoEvidenceCase) { c.treatment }
  predicate Holds(b: bool) { b }

  function TargetArm(targets: seq<TargetScore>): Arm
    requires targets != []
  {
    Arm(Count(targets, IsTwoSided), |targets|, Round6(Mean(Project(targets, RecallOf))), Round6(Mean(Project(targets, NdcgOf))))
  }

  function GainsOf(control: Arm, treatment: Arm): Gains {
    Gains(Round6((treatment.strict as real - control.strict as real) / 4.0), Round6(treatment.recall - control.recall),
          Round6(treatment.ndcg - control.ndcg))
  }

  function NonRegressionOf(run: GateRun, spec: Spec): NonRegression
    requires run.controlRecall3 != [] && run.treatmentRecall3 != [] && run.controlNdcg10 != [] &&
      run.treatmentNdcg10 != []
  {
    var cr, tr, cn, tn := Mean(run.controlRecall3), Mean(run.treatmentRecall3), Mean(run.controlNdcg10), Mean(run.treatmentNdcg10);
    NonRegression(|run.controlRecall3|, Round6(cr), Round6(tr), Round6(cr - tr), spec.recallDropMax,
                  Round6(cn), Round6(tn), Round6(cn - tn), 0.01)
  }

  function NoEvidenceOf(cases: seq<NoEvidenceCase>): NoEvidenceSummary {
    var control, treatment := Count(cases, ControlEmpty), Count(cases, TreatmentEmpty);
    NoEvidenceSummary(|cases|, control, treatment, treatment >= control)
  }

  function CanaryOf(cases: seq<CanaryCase>): CanarySummary {
    var passed := Count(cases, CasePassed);
    CanarySummary(passed, |cases|, Count(cases, PassedAnswerable), Count(cases, PassedNoEvidence), Count(cases, PassedForbidden),
                  passed == |cases|)
  }

  function CostOf(run: GateRun): Cost
    requires run.controlLatency != [] && run.treatmentLatency != [] && run.variableLatency != []
  {
    var c, t, v := Percentile(run.controlLatency, 0.95), Percentile(run.treatmentLatency, 0.95), Percentile(run.variableLatency, 0.95);
    Cost(|run.controlLatency|, Round6(c), Round6(t), Round6(t - c), 50.0, Round6(v), 5.0)
  }

  function ObservationsOf(observations: seq<VariableObservation>): ObservationSummary {
    ObservationSummary(|observations|, Count(observations, IsApplied), Count(observations, IsFallback),
                       Count(observations, IsDisabled),
                       Count(observations, IsChanged))
  }

  function CleanupOf(run: GateRun): Cleanup {
    var succeeded := Count(run.cleanupSucceeded, Holds);
    Cleanup(run.versions == 3 && |run.cleanupSucceeded| == 9 && succeeded == |run.cleanupSucceeded| &&
            run.deletedIs403 && run.failedClosed,
            run.versions, succeeded, 9, run.failedClosed, if run.deletedIs403 then Some(403) else None)
  }

  /** The thresholds the gate itself applies to the numbers it reports. */
  predicate QualityPass(spec: Spec, treatment: Arm, g: Gains, n: NonRegression, e: NoEvidenceSummary, c: CanarySummary,
                        cost: Cost,
                        o: ObservationSummary) {
    treatment.strict >= 3 && g.strict >= 0.5 && g.recall >= 0.2 && g.ndcg >= 0.1 &&
    n.recallDrop <= spec.recallDropMax && n.ndcgDrop <= 0.01 && e.noWorse && c.passed == 15 &&
    cost.incrementalP95 <= 50.0 && cost.variableP95 <= 5.0 && (spec.isRouteCoverage ==> o.applied == 4)
  }

  datatype GateError = ControlBaselineMismatch | CostObservationIncomplete | EmptyStatistics

  predicate Measured(run: GateRun) {
    run.controlTargets != [] && run.treatmentTargets != [] && run.controlRecall3 != [] && run.treatmentRecall3 != [] &&
    run.controlNdcg10 != [] && run.treatmentNdcg10 != [] && run.controlLatency != [] && run.treatmentLatency != [] &&
    run.variableLatency != []
  }

  function GateReport(run: GateRun, spec: Spec): Result<Report, GateError> {
    if !Measured(run) then Raised(EmptyStatistics)
    else
      var control, treatment := TargetArm(run.controlTargets), TargetArm(run.treatmentTargets);
      if control.strict != 0 then Raised(ControlBaselineMismatch)
      else if |run.variableLatency| != |run.treatmentLatency| then Raised(CostObservationIncomplete)
      else
        var gains, nonRegression := GainsOf(control, treatment), NonRegressionOf(run, spec);
        var noEvidence, canary := NoEvidenceOf(run.noEvidence), CanaryOf(run.canary);
        var cost, observations, cleanup := CostOf(run), ObservationsOf(run.targetObservations), CleanupOf(run);
        Ok(Report(QualityPass(spec, treatment, gains, nonRegression, noEvidence, canary, cost, observations) && cleanup.passed,
                  control, treatment, gains, nonRegression, noEvidence, canary, cost, observations,
                  run.readyDocuments, run.runtimeChunks, cleanup))
  }

  /** The number of positions at which `p` holds. */
  lemma {:induction false} CountIsCardinality<T>(s: seq<T>, p: T -> bool)
    ensures Count(s, p) == |set i | 0 <= i < |s| && p(s[i])|
  {
    var here := set i | 0 <= i < |s| && p(s[i]);
    if s == [] {
      assert here == {};
    } else {
      var n := |s| - 1;
      CountIsCardinality(s[..n], p);
      var before := set i | 0 <= i < |s[..n]| && p(s[..n][i]);
      if p(s[n]) {
        assert here == before + {n};
      } else {
        assert here == before;
      }
    }
  }

  lemma QuarterIsExact(n: nat)
    ensures Round6((n as real - 0.0) / 4.0) == n as real / 4.0
  {
    assert (n as real - 0.0) / 4.0 * MICROS == (n * 250000) as real;
    assert ((n * 250000) as real).Floor == n * 250000;
  }

  ghost function TwoSided(targets: seq<TargetScore>): set<nat> {
    set i | 0 <= i < |targets| && targets[i].twoSided
  }

  ghost function AppliedAt(observations: seq<VariableObservation>): set<nat> {
    set i | 0 <= i < |observations| && observations[i].status == Applied
  }

  ghost function Recalls(targets: seq<TargetScore>): (r: seq<real>)
    ensures |r| == |targets| && forall i :: 0 <= i < |r| ==> r[i] == targets[i].recall
  {
    seq(|targets|, i requires 0 <= i < |targets| => targets[i].recall)
  }

  ghost function Ndcgs(targets: seq<TargetScore>): (r: seq<real>)
    ensures |r| == |targets| && forall i :: 0 <= i < |r| ==> r[i] == targets[i].ndcg
  {
    seq(|targets|, i requires 0 <= i < |targets| => targets[i].ndcg)
  }

  ghost function EmptyInControl(cases: seq<NoEvidenceCase>): set<nat> {
    set i | 0 <= i < |cases| && cases[i].control
  }

  ghost function EmptyInTreatment(cases: seq<NoEvidenceCase>): set<nat> {
    set i | 0 <= i < |cases| && cases[i].treatment
  }

  ghost function PassedAt(cases: seq<CanaryCase>): set<nat> {
    set i | 0 <= i < |cases| && cases[i].passed
  }

  /** The counts and means of the report in terms of the cases themselves. */
  lemma TargetFigures(targets: seq<TargetScore>)
    ensures Count(targets, IsTwoSided) == |TwoSided(targets)|
    ensures Project(targets, RecallOf) == Recalls(targets) && Project(targets, NdcgOf) == Ndcgs(targets)
  {
    CountsAs(targets, IsTwoSided, TwoSided(targets));
    hide Count, TwoSided;
    forall i | 0 <= i < |targets|
      ensures Project(targets, RecallOf)[i] == Recalls(targets)[i] && Project(targets, NdcgOf)[i] == Ndcgs(targets)[i]
    {
      assert RecallOf(targets[i]) == targets[i].recall && NdcgOf(targets[i]) == targets[i].ndcg;
    }
  }

  lemma NoEvidenceFigures(cases: seq<NoEvidenceCase>)
    ensures Count(cases, ControlEmpty) == |EmptyInControl(cases)| && Count(cases, TreatmentEmpty) == |EmptyInTreatment(cases)|
  {
    CountsAs(cases, ControlEmpty, EmptyInControl(cases));
    CountsAs(cases, TreatmentEmpty, EmptyInTreatment(cases));
  }

  lemma CanaryFigures(cases: seq<CanaryCase>, observations: seq<VariableObservation>)
    ensures Count(cases, CasePassed) == |PassedAt(cases)| && Count(observations, IsApplied) == |AppliedAt(observations)|
  {
    CountsAs(cases, CasePassed, PassedAt(cases));
    CountsAs(observations, IsApplied, AppliedAt(observations));
  }

  lemma CountsAs<T>(s: seq<T>, p: T -> bool, here: set<nat>)
    requires forall i :: i in here <==> 0 <= i < |s| && p(s[i])
    ensures Count(s, p) == |here|
  {
    CountIsCardinality(s, p);
    assert here == set i | 0 <= i < |s| && p(s[i]);
  }

  /** The targets are better: 3 two-sided, 0.2 of recall and 0.1 of nDCG, between the rounded means of the arms. */
  ghost predicate TargetsImproved(run: GateRun)
    requires Measured(run)
  {
    |TwoSided(run.treatmentTargets)| >= 3 &&
    Round6(Mean(Recalls(run.treatmentTargets))) - Round6(Mean(Recalls(run.controlTargets))) >= 0.2 &&
    Round6(Mean(Ndcgs(run.treatmentTargets))) - Round6(Mean(Ndcgs(run.controlTargets))) >= 0.1
  }

  /** The other cases are no worse: rounded drops of the means inside their limits, as many empty answers on the
      no-evidence cases, and 15 canary passes. */
  ghost predicate OthersHeld(run: GateRun, spec: Spec)
    requires Measured(run)
  {
    Round6(Mean(run.controlRecall3) - Mean(run.treatmentRecall3)) <= spec.recallDropMax &&
    Round6(Mean(run.controlNdcg10) - Mean(run.treatmentNdcg10)) <= 0.01 &&
    |EmptyInControl(run.noEvidence)| <= |EmptyInTreatment(run.noEvidence)| && |PassedAt(run.canary)| == 15
  }

  ghost predicate CostHeld(run: GateRun)
    requires Measured(run)
  {
    Round6(Percentile(run.treatmentLatency, 0.95) - Percentile(run.controlLatency, 0.95)) <= 50.0 &&
    Round6(Percentile(run.variableLatency, 0.95)) <= 5.0
  }

  ghost predicate CleanedUp(run: GateRun) {
    run.versions == 3 && |run.cleanupSucceeded| == 9 && (forall s :: s in run.cleanupSucceeded ==> s) &&
    run.deletedIs403 && run.failedClosed
  }

  /** When the gate passes a run, in terms of what the run observed; a gain of 0.5 in two-sided targets follows from
      the other demands. */
  lemma GatePassesExactly(run: GateRun, spec: Spec)
    ensures GateReport(run, spec).Ok? <==>
      run.controlTargets != [] && run.treatmentTargets != [] && run.controlRecall3 != [] && run.treatmentRecall3 != [] &&
      run.controlNdcg10 != [] && run.treatmentNdcg10 != [] && run.controlLatency != [] && run.treatmentLatency != [] &&
      TwoSided(run.controlTargets) == {} && |run.variableLatency| == |run.treatmentLatency|
    ensures var r := GateReport(run, spec); r.Ok? ==> (r.value.pass <==>
      TargetsImproved(run) && OthersHeld(run, spec) && CostHeld(run) && CleanedUp(run) &&
      (spec.isRouteCoverage ==> |AppliedAt(run.targetObservations)| == 4))
  {
    hide Round6, Mean, Percentile, Count, Project, TwoSided, AppliedAt, PassedAt, EmptyInControl,
      EmptyInTreatment, Recalls, Ndcgs;
    TargetFigures(run.treatmentTargets);
    TargetFigures(run.controlTargets);
    NoEvidenceFigures(run.noEvidence);
    CanaryFigures(run.canary, run.targetObservations);
    if Measured(run) {
      Round6OfRounded(Mean(Project(run.treatmentTargets, RecallOf)), Mean(Project(run.controlTargets, RecallOf)));
      Round6OfRounded(Mean(Project(run.treatmentTargets, NdcgOf)), Mean(Project(run.controlTargets, NdcgOf)));
      QuarterIsExact(Count(run.treatmentTargets, IsTwoSided));
      EachHolds(run.cleanupSucceeded);
    }
  }

  lemma {:induction false} EachHolds(succeeded: seq<bool>)
    ensures Count(succeeded, Holds) <= |succeeded|
    ensures Count(succeeded, Holds) == |succeeded| <==> forall s :: s in succeeded ==> s
  {
    if succeeded != [] {
      var front, last := succeeded[..|succeeded| - 1], succeeded[|succeeded| - 1];
      EachHolds(front);
      assert succeeded == front + [last] && last in succeeded;
      assert forall s :: s in front ==> s in succeeded;
    }
  }

  // ---------------------------------------------------------------- the adjudicator

  predicate InUnit(x: real) {
    0.0 <= x <= 1.0
  }

  predicate TargetsAccepted(r: Report) {
    r.control.strict == 0 && r.control.total == 4 && r.treatment.total == 4 && r.treatment.strict in {3, 4} &&
    InUnit(r.control.recall) && InUnit(r.treatment.recall) && InUnit(r.control.ndcg) && InUnit(r.treatment.ndcg) &&
    Close(r.gains.strict, (r.treatment.strict as real - r.control.strict as real) / 4.0) &&
    Close(r.gains.recall, r.treatment.recall - r.control.recall) &&
    Close(r.gains.ndcg, r.treatment.ndcg - r.control.ndcg) &&
    r.gains.strict >= 0.5 && r.gains.recall >= 0.2 && r.gains.ndcg >= 0.1
  }

  predicate NonRegressionAccepted(n: NonRegression, spec: Spec) {
    n.caseCount == 80 && n.recallDropMax == spec.recallDropMax && n.ndcgDropMax == 0.01 &&
    Close(n.recallDrop, n.controlRecall - n.treatmentRecall) && Close(n.ndcgDrop, n.controlNdcg - n.treatmentNdcg) &&
    InUnit(n.controlRecall) && InUnit(n.treatmentRecall) && InUnit(n.controlNdcg) && InUnit(n.treatmentNdcg) &&
    n.recallDrop <= spec.recallDropMax && n.ndcgDrop <= 0.01
  }

  predicate NoEvidenceAccepted(e: NoEvidenceSummary) {
    e.caseCount == 9 && e.noWorse && e.control <= 9 && e.treatment <= 9 && e.treatment >= e.control
  }

  predicate CanaryAccepted(c: CanarySummary) {
    c.passed == 15 && c.total == 15 && c.answerable == 9 && c.noEvidence == 3 && c.forbidden == 3 && c.exactBoundary
  }

  predicate CostAccepted(c: Cost) {
    30 <= c.samples <= 100 && c.incrementalLimit == 50.0 && c.variableLimit == 5.0 && c.controlP95 >= 0.0 &&
    c.treatmentP95 >= 0.0 &&
    Close(c.incrementalP95, c.treatmentP95 - c.controlP95) && c.incrementalP95 <= 50.0 && 0.0 <= c.variableP95 <= 5.0
  }

  predicate ObservationsAccepted(o: ObservationSummary) {
    o.count == 4 && o.applied == 4 && o.fallback == 0 && o.disabled == 0 && o.changed <= 4
  }

  predicate CleanupAccepted(c: Cleanup) {
    c.passed && c.scheduledVersions == 3 && c.jobsSucceeded == 9 && c.jobsExpected == 9 && c.failedClosed &&
    c.deletedApiStatus == Some(403)
  }

  predicate Adjudicated(r: Report, spec: Spec) {
    r.pass && r.readyDocuments == 3 && r.runtimeChunks == 316 && TargetsAccepted(r) &&
    NonRegressionAccepted(r.nonRegression, spec) &&
    NoEvidenceAccepted(r.noEvidence) && CanaryAccepted(r.canary) && CostAccepted(r.cost) &&
    (spec.isRouteCoverage ==> ObservationsAccepted(r.observations)) && CleanupAccepted(r.cleanup)
  }

  // ---------------------------------------------------------------- every PASS report is accepted

  /** The frozen composition: 4 targets, 80 non-targets, 9 no-evidence cases, a 9/3/3 canary, 316 chunks of 3 documents,
      and one observation per search. */
  ghost predicate FrozenCounts(run: GateRun) {
    |run.controlTargets| == |run.treatmentTargets| == |run.targetObservations| == 4 &&
    |run.controlRecall3| == |run.treatmentRecall3| == |run.controlNdcg10| == |run.treatmentNdcg10| == 80 &&
    |run.noEvidence| == 9 && |run.canary| == 15 && Count(run.canary, IsAnswerable) == 9 &&
    Count(run.canary, IsNoEvidence) == 3 &&
    Count(run.canary, IsForbidden) == 3 && |run.controlLatency| == |run.treatmentLatency| == |run.variableLatency| &&
    30 <= |run.controlLatency| <= 100 && run.readyDocuments == 3 && run.runtimeChunks == 316
  }

  /** Scores are the metrics of single rankings, and no measured latency is negative. */
  ghost predicate ScoresInRange(run: GateRun) {
    AllIn(Project(run.controlTargets, RecallOf), 0.0, 1.0) &&
    AllIn(Project(run.treatmentTargets, RecallOf), 0.0, 1.0) &&
    AllIn(Project(run.controlTargets, NdcgOf), 0.0, 1.0) && AllIn(Project(run.treatmentTargets, NdcgOf), 0.0, 1.0) &&
    AllIn(run.controlRecall3, 0.0, 1.0) && AllIn(run.treatmentRecall3, 0.0, 1.0) &&
    AllIn(run.controlNdcg10, 0.0, 1.0) && AllIn(run.treatmentNdcg10, 0.0, 1.0) &&
    NotNegative(run.controlLatency) && NotNegative(run.treatmentLatency) && NotNegative(run.variableLatency)
  }

  ghost predicate NotNegative(values: seq<real>) {
    forall v :: v in values ==> v >= 0.0
  }

  lemma {:induction false} CountAtMost<T>(s: seq<T>, p: T -> bool, q: T -> bool)
    requires forall x :: x in s && p(x) ==> q(x)
    ensures Count(s, p) <= Count(s, q) <= |s|
    ensures Count(s, p) == |s| ==> forall x :: x in s ==> p(x)
  {
    if s != [] {
      var front, last := s[..|s| - 1], s[|s| - 1];
      assert s == front + [last] && last in s;
      forall x | x in front && p(x) ensures q(x) {
        assert x in s;
      }
      CountAtMost(front, p, q);
    }
  }

  lemma {:induction false} SameCount<T>(s: seq<T>, p: T -> bool, q: T -> bool)
    requires forall x :: x in s ==> p(x) == q(x)
    ensures Count(s, p) == Count(s, q)
  {
    if s != [] {
      assert s == s[..|s| - 1] + [s[|s| - 1]] && s[|s| - 1] in s;
      forall x | x in s[..|s| - 1] ensures p(x) == q(x) {
        assert x in s;
      }
      SameCount(s[..|s| - 1], p, q);
    }
  }

  lemma RoundedMeanInUnit(values: seq<real>)
    requires values != [] && AllIn(values, 0.0, 1.0)
    ensures InUnit(Round6(Mean(values)))
  {
    MeanInUnit(values);
    Round6KeepsBounds(Mean(values), 0, 1);
  }

  lemma GainsAreClose(control: Arm, treatment: Arm, x: real, y: real, z: real, w: real)
    requires control.recall == Round6(x) && treatment.recall == Round6(y) && control.ndcg == Round6(z) &&
      treatment.ndcg == Round6(w)
    ensures var g := GainsOf(control, treatment);
      g.recall == treatment.recall - control.recall && g.ndcg == treatment.ndcg - control.ndcg &&
      Close(g.strict, (treatment.strict as real - control.strict as real) / 4.0)
  {
    Round6OfRounded(y, x);
    Round6OfRounded(w, z);
    Round6IsNear((treatment.strict as real - control.strict as real) / 4.0);
  }

  lemma TargetsAgree(run: GateRun, spec: Spec)
    requires FrozenCounts(run) && ScoresInRange(run) && GateReport(run, spec).Ok? && GateReport(run, spec).value.pass
    ensures TargetsAccepted(GateReport(run, spec).value)
  {
    hide Round6, Mean, Percentile, NonRegressionOf, CostOf, CanaryOf, NoEvidenceOf, ObservationsOf, CleanupOf, AllIn;
    var r := GateReport(run, spec).value;
    RoundedMeanInUnit(Project(run.controlTargets, RecallOf));
    RoundedMeanInUnit(Project(run.treatmentTargets, RecallOf));
    RoundedMeanInUnit(Project(run.controlTargets, NdcgOf));
    RoundedMeanInUnit(Project(run.treatmentTargets, NdcgOf));
    GainsAreClose(r.control, r.treatment, Mean(Project(run.controlTargets, RecallOf)), Mean(Project(run.treatmentTargets, RecallOf)),
                  Mean(Project(run.controlTargets, NdcgOf)), Mean(Project(run.treatmentTargets, NdcgOf)));
    CountAtMost(run.treatmentTargets, IsTwoSided, IsTwoSided);
  }

  lemma NonRegressionAgrees(run: GateRun, spec: Spec)
    requires FrozenCounts(run) && ScoresInRange(run)
    requires NonRegressionOf(run, spec).recallDrop <= spec.recallDropMax && NonRegressionOf(run, spec).ndcgDrop <= 0.01
    ensures NonRegressionAccepted(NonRegressionOf(run, spec), spec)
  {
    hide Round6, Mean, AllIn;
    RoundedMeanInUnit(run.controlRecall3);
    RoundedMeanInUnit(run.treatmentRecall3);
    RoundedMeanInUnit(run.controlNdcg10);
    RoundedMeanInUnit(run.treatmentNdcg10);
    RoundedDifferenceIsClose(Mean(run.controlRecall3), Mean(run.treatmentRecall3));
    RoundedDifferenceIsClose(Mean(run.controlNdcg10), Mean(run.treatmentNdcg10));
  }

  lemma CanaryAgrees(run: GateRun)
    requires FrozenCounts(run) && CanaryOf(run.canary).passed == 15
    ensures CanaryAccepted(CanaryOf(run.canary))
  {
    CountAtMost(run.canary, CasePassed, CasePassed);
    hide Count;
    assert forall c :: c in run.canary ==> CasePassed(c);
    SameCount(run.canary, PassedAnswerable, IsAnswerable);
    SameCount(run.canary, PassedNoEvidence, IsNoEvidence);
    SameCount(run.canary, PassedForbidden, IsForbidden);
  }

  function GreatestOf(values: seq<real>): real {
    if values == [] then 0.0
    else
      var before := GreatestOf(values[..|values| - 1]);
      if values[|values| - 1] > before then values[|values| - 1] else before
  }

  lemma {:induction false} GreatestBounds(values: seq<real>)
    ensures GreatestOf(values) >= 0.0 && forall v :: v in values ==> v <= GreatestOf(values)
  {
    if values != [] {
      assert values == values[..|values| - 1] + [values[|values| - 1]];
      GreatestBounds(values[..|values| - 1]);
    }
  }

  lemma PercentileNotNegative(values: seq<real>)
    requires values != [] && NotNegative(values)
    ensures Percentile(values, 0.95) >= 0.0 && Round6(Percentile(values, 0.95)) >= 0.0
  {
    hide Percentile;
    GreatestBounds(values);
    PercentilesAreOrdered(values, 0.95, 0.95, 0.0, GreatestOf(values));
    var p := Percentile(values, 0.95);
    Round6KeepsBounds(p, 0, p.Floor + 1);
  }

  lemma CostAgrees(run: GateRun)
    requires FrozenCounts(run) && ScoresInRange(run) && CostOf(run).incrementalP95 <= 50.0 &&
      CostOf(run).variableP95 <= 5.0
    ensures CostAccepted(CostOf(run))
  {
    hide Percentile, Round6, AllIn;
    PercentileNotNegative(run.controlLatency);
    PercentileNotNegative(run.treatmentLatency);
    PercentileNotNegative(run.variableLatency);
    RoundedDifferenceIsClose(Percentile(run.treatmentLatency, 0.95), Percentile(run.controlLatency, 0.95));
  }

  lemma {:induction false} StatusesPartition(observations: seq<VariableObservation>)
    ensures Count(observations, IsApplied) + Count(observations, IsFallback) + Count(observations, IsDisabled) == |observations|
    ensures Count(observations, IsChanged) <= |observations|
  {
    if observations != [] {
      StatusesPartition(observations[..|observations| - 1]);
    }
  }

  lemma CleanupAgrees(run: GateRun)
    requires CleanupOf(run).passed
    ensures CleanupAccepted(CleanupOf(run))
  {
  }

  /** The adjudicator accepts every PASS report the gate can emit on the frozen counts. */
  lemma PassReportIsAccepted(run: GateRun, spec: Spec)
    requires FrozenCounts(run) && ScoresInRange(run) && GateReport(run, spec).Ok? && GateReport(run, spec).value.pass
    ensures Adjudicated(GateReport(run, spec).value, spec)
  {
    hide Round6, Mean, Percentile, AllIn, Count, Project, TargetsAccepted, NonRegressionAccepted, CostAccepted, CanaryAccepted,
         CleanupAccepted, GainsOf;
    TargetsAgree(run, spec);
    NonRegressionAgrees(run, spec);
    CanaryAgrees(run);
    CostAgrees(run);
    CleanupAgrees(run);
    StatusesPartition(run.targetObservations);
    CountAtMost(run.noEvidence, ControlEmpty, ControlEmpty);
    CountAtMost(run.noEvidence, TreatmentEmpty, TreatmentEmpty);
  }

  // ---------------------------------------------------------------- runs whose scores come from the gate's scoring

  /** One search scored against a case: distinct candidates and judgments, none about the empty identifier. */
  ghost predicate IsSearch(judgments: seq<RM.Judgment>, chunks: seq<nat>) {
    RM.DistinctJudgments(judgments) && CR.EmptyIsUnjudged(judgments) && Distinct(chunks)
  }

  ghost predicate IsRecall(x: real, m: CR.Remap, k: nat, discount: nat -> real) {
    exists judgments, chunks :: IsSearch(judgments, chunks) && CR.GateScore(judgments, m, chunks, k, discount).Some? &&
      CR.GateScore(judgments, m, chunks, k, discount).value.0 == x
  }

  ghost predicate IsNdcg(x: real, m: CR.Remap, k: nat, discount: nat -> real) {
    exists judgments, chunks :: IsSearch(judgments, chunks) && CR.GateScore(judgments, m, chunks, k, discount).Some? &&
      CR.GateScore(judgments, m, chunks, k, discount).value.1 == x
  }

  ghost predicate ScoredTargets(targets: seq<TargetScore>, m: CR.Remap, discount: nat -> real) {
    forall i :: 0 <= i < |targets| ==> IsRecall(targets[i].recall, m, 3, discount) && IsNdcg(targets[i].ndcg, m, 3, discount)
  }

  /** Target scores are taken at rank 3; of the other cases recall is taken at 3 and nDCG at 10. */
  ghost predicate ScoredRun(run: GateRun, m: CR.Remap, discount: nat -> real) {
    ScoredTargets(run.controlTargets, m, discount) && ScoredTargets(run.treatmentTargets, m, discount) &&
    (forall x :: x in run.controlRecall3 + run.treatmentRecall3 ==> IsRecall(x, m, 3, discount)) &&
    (forall x :: x in run.controlNdcg10 + run.treatmentNdcg10 ==> IsNdcg(x, m, 10, discount))
  }

  lemma ScoredValueInUnit(x: real, m: CR.Remap, k: nat, discount: nat -> real)
    requires CR.Inverse(m) && RM.Discounting(discount) && k >= 1
    requires IsRecall(x, m, k, discount) || IsNdcg(x, m, k, discount)
    ensures 0.0 <= x <= 1.0
  {
    hide CR.GateScore, CR.Inverse, RM.Discounting;
    if IsRecall(x, m, k, discount) {
      var judgments, chunks :| IsSearch(judgments, chunks) && CR.GateScore(judgments, m, chunks, k, discount).Some? &&
        CR.GateScore(judgments, m, chunks, k, discount).value.0 == x;
      CR.GateScoreIsBounded(judgments, m, chunks, k, discount);
    } else {
      var judgments, chunks :| IsSearch(judgments, chunks) && CR.GateScore(judgments, m, chunks, k, discount).Some? &&
        CR.GateScore(judgments, m, chunks, k, discount).value.1 == x;
      CR.GateScoreIsBounded(judgments, m, chunks, k, discount);
    }
  }

  lemma TargetsInUnit(targets: seq<TargetScore>, m: CR.Remap, discount: nat -> real)
    requires CR.Inverse(m) && RM.Discounting(discount) && ScoredTargets(targets, m, discount)
    ensures AllIn(Project(targets, RecallOf), 0.0, 1.0) && AllIn(Project(targets, NdcgOf), 0.0, 1.0)
  {
    hide IsRecall, IsNdcg, CR.Inverse, RM.Discounting;
    forall i | 0 <= i < |targets| ensures 0.0 <= targets[i].recall <= 1.0 && 0.0 <= targets[i].ndcg <= 1.0 {
      ScoredValueInUnit(targets[i].recall, m, 3, discount);
      ScoredValueInUnit(targets[i].ndcg, m, 3, discount);
    }
    forall i | 0 <= i < |targets|
      ensures 0.0 <= Project(targets, RecallOf)[i] <= 1.0 && 0.0 <= Project(targets, NdcgOf)[i] <= 1.0
    {
      assert Project(targets, RecallOf)[i] == RecallOf(targets[i]) && Project(targets, NdcgOf)[i] == NdcgOf(targets[i]);
    }
  }

  ghost predicate LatenciesMeasured(run: GateRun) {
    NotNegative(run.controlLatency) && NotNegative(run.treatmentLatency) && NotNegative(run.variableLatency)
  }

  /** Scores taken through a successful matching are in range, whatever the searches returned. */
  lemma ScoredRunIsInRange(run: GateRun, m: CR.Remap, discount: nat -> real)
    requires CR.Inverse(m) && RM.Discounting(discount) && ScoredRun(run, m, discount) && LatenciesMeasured(run)
    ensures ScoresInRange(run)
  {
    hide IsRecall, IsNdcg, ScoredTargets, CR.Inverse, RM.Discounting, Project, NotNegative;
    TargetsInUnit(run.controlTargets, m, discount);
    TargetsInUnit(run.treatmentTargets, m, discount);
    forall x | x in run.controlRecall3 + run.treatmentRecall3 ensures 0.0 <= x <= 1.0 {
      ScoredValueInUnit(x, m, 3, discount);
    }
    forall x | x in run.controlNdcg10 + run.treatmentNdcg10 ensures 0.0 <= x <= 1.0 {
      ScoredValueInUnit(x, m, 10, discount);
    }
    assert forall x :: x in run.controlRecall3 || x in run.treatmentRecall3 ==>
      x in run.controlRecall3 + run.treatmentRecall3;
    assert forall x :: x in run.controlNdcg10 || x in run.treatmentNdcg10 ==>
      x in run.controlNdcg10 + run.treatmentNdcg10;
  }

  /** From the scoring to the verdict: a PASS report over the frozen counts is accepted, whatever the searches
      returned. */
  lemma ScoredPassReportIsAccepted(run: GateRun, spec: Spec, m: CR.Remap, discount: nat -> real)
    requires CR.Inverse(m) && RM.Discounting(discount) && ScoredRun(run, m, discount) && LatenciesMeasured(run)
    requires FrozenCounts(run) && GateReport(run, spec).Ok? && GateReport(run, spec).value.pass
    ensures Adjudicated(GateReport(run, spec).value, spec)
  {
    hide FrozenCounts, ScoredRun, ScoresInRange, GateReport, Adjudicated, CR.Inverse, RM.Discounting;
    ScoredRunIsInRange(run, m, discount);
    PassReportIsAccepted(run, spec);
  }

  ghost function ReportedMetrics(r: Report): seq<real> {
    [r.control.recall, r.treatment.recall, r.control.ndcg, r.treatment.ndcg, r.nonRegression.controlRecall,
     r.nonRegression.treatmentRecall, r.nonRegression.controlNdcg, r.nonRegression.treatmentNdcg]
  }

  /** What acceptance guarantees of any report, whoever wrote it: the stated thresholds hold for the reported arms
      themselves, up to the tolerance. */
  lemma AcceptedReportMeetsThresholds(r: Report, spec: Spec)
    requires Adjudicated(r, spec)
    ensures r.treatment.strict >= 3 && r.control.strict == 0
    ensures r.treatment.recall - r.control.recall >= 0.2 - TOLERANCE &&
      r.treatment.ndcg - r.control.ndcg >= 0.1 - TOLERANCE
    ensures r.nonRegression.controlRecall - r.nonRegression.treatmentRecall <= spec.recallDropMax + TOLERANCE
    ensures r.nonRegression.controlNdcg - r.nonRegression.treatmentNdcg <= 0.01 + TOLERANCE
    ensures r.cost.treatmentP95 - r.cost.controlP95 <= 50.0 + TOLERANCE && 0.0 <= r.cost.variableP95 <= 5.0
    ensures forall x :: x in ReportedMetrics(r) ==> 0.0 <= x <= 1.0
    ensures r.noEvidence.control <= r.noEvidence.treatment <= 9 == r.noEvidence.caseCount
    ensures r.canary.passed == r.canary.total == 15 && 30 <= r.cost.samples <= 100
    ensures spec.isRouteCoverage ==> r.observations.applied == r.observations.count == 4 && r.observations.changed <= 4
    ensures r.cleanup == Cleanup(true, 3, 9, 9, true, Some(403)) && r.pass && r.readyDocuments == 3 && r.runtimeChunks == 316
    ensures r.control.total == r.treatment.total == 4 && r.treatment.strict <= 4 && r.nonRegression.caseCount == 80
    ensures r.nonRegression.recallDropMax == spec.recallDropMax && r.nonRegression.ndcgDropMax == 0.01
    ensures r.noEvidence.noWorse && r.canary == CanarySummary(15, 15, 9, 3, 3, true)
    ensures r.cost.incrementalLimit == 50.0 && r.cost.variableLimit == 5.0 && r.cost.controlP95 >= 0.0 && r.cost.treatmentP95 >= 0.0
    ensures spec.isRouteCoverage ==> r.observations.fallback == r.observations.disabled == 0
  {
  }
}
