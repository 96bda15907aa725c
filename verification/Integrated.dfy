/** One verdict over the steady-state, transient and EMT stages. */
module Integrated {
  import opened Prelude
  import opened GridModel
  import opened Stages
  import opened Emt
  import Cia
  import C = Contingencies

  datatype TransientRequest = TransientRequest(enabled: bool, requiredForApproval: bool, hasDisturbance: bool)

  datatype EmtRequest = EmtRequest(enabled: bool, requiredForApproval: bool, scrThreshold: real, borderlineMargin: real)

  // What the dynamic runner reports; an exception it raises counts as ok = false with an error status.
  datatype DynamicResult = DynamicResult(ok: bool, stability: Status, reasonCodes: seq<string>)

  // A stage of the integrated report. `linked` tells whether the new connection was modelled in it.
  datatype StageView = StageView(status: Status, passed: Option<bool>, required: bool, reasonCodes: seq<string>, linked: bool)

  function M1Stage(report: Cia.CiaReport): StageView {
    match report
    case BaselineFailed(_) => StageView(Error, Some(false), true, [], true)
    case Report(recommendation, _, codes, _) =>
      StageView(
        match recommendation case Approve => Pass case BorderlineVerdict => BorderlineStatus case Reject => Fail,
        Some(recommendation.Approve?), true, codes, true)
  }

  function M2Stage(t: TransientRequest, result: DynamicResult, linked: bool): StageView {
    if !t.enabled then StageView(Skipped, None, false, ["transient_not_requested"], false)
    else if !t.hasDisturbance then
      StageView(NotReady, if t.requiredForApproval then Some(false) else None, t.requiredForApproval, ["transient_disturbance_missing"], false)
    else
      var passed := result.ok && result.stability.Pass?;
      StageView(
        if passed then Pass
        else if result.stability.BorderlineStatus? then BorderlineStatus
        else if result.ok then Fail
        else Unavailable,
        Some(passed), t.requiredForApproval,
        if result.reasonCodes == [] then ["transient_result_without_reason_codes"] else result.reasonCodes, linked)
  }

  function EmtStage(e: EmtRequest, result: EmtResult): StageView {
    if !e.enabled then StageView(Skipped, None, false, ["emt_not_requested"], false)
    else
      match result
      case Raised(_) =>
        StageView(Unavailable, if e.requiredForApproval then Some(false) else None, e.requiredForApproval, ["emt_screening_unavailable"], false)
      case Returned(ok, status, _, _, codes, applied) =>
        var named := if codes == [] then ["emt_result_without_reason_codes"] else codes;
        if !ok then
          StageView(Unavailable, if e.requiredForApproval then Some(false) else None, e.requiredForApproval, named, applied)
        else if status.Pass? || status.Skipped? then StageView(status, Some(true), e.requiredForApproval, named, applied)
        else if status.BorderlineStatus? then StageView(BorderlineStatus, Some(false), e.requiredForApproval, named, applied)
        else StageView(Fail, Some(false), e.requiredForApproval, named, applied)
  }

  datatype Verdict = Verdict(recommendation: Recommendation, complete: bool, reasonCodes: seq<string>)

  function CarriedReasons(m1: StageView, m2: StageView, emt: StageView): seq<string> {
    ["integrated_assessment"]
      + Map(m1.reasonCodes, c => "m1_" + c) + Map(m2.reasonCodes, c => "m2_" + c) + Map(emt.reasonCodes, c => "emt_" + c)
  }

  /** `_integrated_recommendation` */
  function IntegratedRecommendation(m1: StageView, m2: StageView, emt: StageView, t: TransientRequest, e: EmtRequest): Verdict {
    var codes0 := CarriedReasons(m1, m2, emt);
    if m1.status.Error? || m1.status.Fail? then
      Verdict(Reject, !m1.status.Error?, codes0 + ["m1_not_approved"])
    else if m1.status.BorderlineStatus? then Verdict(BorderlineVerdict, true, codes0 + ["m1_borderline"])
    else if t.enabled && m2.status.BorderlineStatus? then Verdict(BorderlineVerdict, true, codes0 + ["m2_borderline"])
    else if t.enabled && m2.status.Fail? then Verdict(Reject, true, codes0 + ["m2_failed"])
    else if t.enabled && !m2.status.Pass? && t.requiredForApproval then
      Verdict(BorderlineVerdict, false, codes0 + ["required_m2_unavailable"])
    else
      var codes1 := codes0 + (if t.enabled && !m2.status.Pass? then ["m2_unavailable_not_required"] else []);
      if e.enabled && emt.status.BorderlineStatus? then Verdict(BorderlineVerdict, true, codes1 + ["emt_borderline"])
      else if e.enabled && emt.status.Fail? then Verdict(Reject, true, codes1 + ["emt_failed"])
      else if e.enabled && !emt.status.Pass? && !emt.status.Skipped? && e.requiredForApproval then
        Verdict(BorderlineVerdict, false, codes1 + ["required_emt_unavailable"])
      else
        var codes2 := codes1 +
          (if !e.enabled then []
           else if emt.status.Pass? || emt.status.Skipped? then ["emt_screen_passed"]
           else ["emt_unavailable_not_required"]);
        Verdict(Approve, true, codes2 +
          (if t.enabled && m2.status.Pass? then ["m1_approved_m2_passed"]
           else if !t.enabled && !e.enabled then ["m1_only_assessment"]
           else []))
  }

  // ---- the assessment ----

  // The strict IEEE 118 alignment either does not apply, finds its case files, or does not.
  datatype CaseData = NotStrict | StrictAvailable | StrictUnavailable(reason: string)

  datatype Study = Study(
    grid: Grid,
    emtGrid: Grid,    // the case named by the EMT request, the study's own by default
    connection: Connection,
    repr: Cia.Repr,
    enableContingency: bool,
    maxContingencies: int,
    threshold: real,
    failOnWorsening: bool,
    transient: TransientRequest,
    emt: EmtRequest,
    dynamic: DynamicResult,
    dynamicLinked: bool)

  function CiaOptionsOf(s: Study): Cia.CiaOptions {
    Cia.CiaOptions(s.enableContingency, false, false, s.maxContingencies, s.threshold, s.failOnWorsening)
  }

  function EmtStageOf(s: Study): StageView {
    EmtStage(s.emt, RunEmt(s.emtGrid, s.connection, s.emt.scrThreshold, s.emt.borderlineMargin))
  }

  function M2StageOf(s: Study): StageView { M2Stage(s.transient, s.dynamic, s.dynamicLinked) }

  function UnavailableVerdict(t: TransientRequest, reason: string): Verdict {
    Verdict(BorderlineVerdict, false, ["integrated_assessment", reason,
      if t.requiredForApproval then "required_m2_unavailable" else "m2_unavailable_not_required"])
  }

  /** `IntegratedAssessmentRunner.run`: an exception of the steady-state stage is caught only under strict alignment. */
  function Assess(s: Study, data: CaseData): Result<Verdict, string> {
    if data.StrictUnavailable? then Ok(UnavailableVerdict(s.transient, data.reason))
    else
      match Cia.Run(s.grid, s.connection, CiaOptionsOf(s), s.repr)
      case Err(error) => if data.NotStrict? then Err(error) else Ok(UnavailableVerdict(s.transient, "case_data_unavailable"))
      case Ok(report) => Ok(IntegratedRecommendation(M1Stage(report), M2StageOf(s), EmtStageOf(s), s.transient, s.emt))
  }

  // ---- the later stages, read off the requests and what the tools answer ----

  predicate TransientPassed(s: Study) { s.transient.hasDisturbance && s.dynamic.ok && s.dynamic.stability.Pass? }

  // Also where the simulation itself was not ok.
  predicate TransientBorderline(s: Study) { s.transient.hasDisturbance && s.dynamic.stability.BorderlineStatus? }

  predicate TransientFailed(s: Study) {
    s.transient.hasDisturbance && s.dynamic.ok && !s.dynamic.stability.Pass? && !s.dynamic.stability.BorderlineStatus?
  }

  // There is no disturbance to simulate, or no simulation of it.
  predicate TransientUnavailable(s: Study) {
    !s.transient.hasDisturbance || (!s.dynamic.ok && !s.dynamic.stability.BorderlineStatus?)
  }

  // The stage passed, or could not be had and was not required.
  predicate TransientAllows(s: Study) {
    s.transient.enabled ==> TransientPassed(s) || (TransientUnavailable(s) && !s.transient.requiredForApproval)
  }

  predicate TransientMissing(s: Study) {
    s.transient.enabled && TransientUnavailable(s) && s.transient.requiredForApproval
  }

  predicate ValidThresholds(e: EmtRequest) { e.scrThreshold > 0.0 && e.borderlineMargin >= 0.0 }

  // Nothing to screen, or enough strength for the size at the threshold plus margin.
  predicate EmtPassed(s: Study) {
    var e := s.emt;
    && ValidThresholds(e)
    && (!EffectiveIsIbr(s.connection) || (Screenable(s.emtGrid, s.connection)
        && s.emtGrid.strength(s.connection).value >= (e.scrThreshold + e.borderlineMargin) * s.emtGrid.hypot(s.connection.pMw, s.connection.qMvar)))
  }

  predicate EmtBorderline(s: Study) {
    var e := s.emt; var mva := s.emtGrid.hypot(s.connection.pMw, s.connection.qMvar);
    && ValidThresholds(e) && Screenable(s.emtGrid, s.connection)
    && e.scrThreshold * mva <= s.emtGrid.strength(s.connection).value < (e.scrThreshold + e.borderlineMargin) * mva
  }

  predicate EmtFailed(s: Study) {
    var mva := s.emtGrid.hypot(s.connection.pMw, s.connection.qMvar);
    && ValidThresholds(s.emt) && EffectiveIsIbr(s.connection)
    && (mva <= 0.0 || (Screenable(s.emtGrid, s.connection) && s.emtGrid.strength(s.connection).value < s.emt.scrThreshold * mva))
  }

  // The screen raises, or the power flow with the project diverges.
  predicate EmtUnavailable(s: Study) {
    || !ValidThresholds(s.emt)
    || (EffectiveIsIbr(s.connection) && s.emtGrid.hypot(s.connection.pMw, s.connection.qMvar) > 0.0 && !Screenable(s.emtGrid, s.connection))
  }

  predicate EmtAllows(s: Study) {
    s.emt.enabled ==> EmtPassed(s) || (EmtUnavailable(s) && !s.emt.requiredForApproval)
  }

  predicate EmtMissing(s: Study) { s.emt.enabled && EmtUnavailable(s) && s.emt.requiredForApproval }

  /** The statuses of the two later stages. */
  lemma TransientOutcome(s: Study)
    requires s.transient.enabled
    ensures var status := M2StageOf(s).status;
      && (status.Pass? <==> TransientPassed(s)) && (status.BorderlineStatus? <==> TransientBorderline(s))
      && (status.Fail? <==> TransientFailed(s)) && (status.NotReady? || status.Unavailable? <==> TransientUnavailable(s))
      && (status.NotReady? <==> !s.transient.hasDisturbance)
  {
  }

  lemma EmtOutcome(s: Study)
    requires s.emt.enabled
    ensures var status := EmtStageOf(s).status;
      && (status.Pass? || status.Skipped? <==> EmtPassed(s)) && (status.BorderlineStatus? <==> EmtBorderline(s))
      && (status.Fail? <==> EmtFailed(s)) && (status.Unavailable? <==> EmtUnavailable(s))
      && (status.Skipped? ==> !EffectiveIsIbr(s.connection)) && (status.Pass? ==> EffectiveIsIbr(s.connection))
  {
    if ValidThresholds(s.emt) {
      ScreenMeaning(s.emtGrid, s.connection, s.emt.scrThreshold, s.emt.borderlineMargin);
    }
  }

  /** What the reports of the two later stages say of having passed, being required and having modelled the connection. */
  lemma TransientFields(s: Study)
    ensures var m2 := M2StageOf(s);
      && m2.required == (s.transient.enabled && s.transient.requiredForApproval)
      && (m2.passed == Some(true) <==> s.transient.enabled && TransientPassed(s))
      && (m2.passed.None? <==> !s.transient.enabled || (!s.transient.hasDisturbance && !s.transient.requiredForApproval))
      && (m2.linked <==> s.transient.enabled && s.transient.hasDisturbance && s.dynamicLinked)
  {
  }

  lemma EmtFields(s: Study)
    ensures var emt := EmtStageOf(s);
      && emt.required == (s.emt.enabled && s.emt.requiredForApproval)
      && (emt.passed == Some(true) <==> s.emt.enabled && EmtPassed(s))
      && (emt.passed.None? <==> !s.emt.enabled || (EmtUnavailable(s) && !s.emt.requiredForApproval))
      && (emt.linked ==> s.emt.enabled && EffectiveIsIbr(s.connection) && AttachError(s.emtGrid, s.connection).None?)
      && (s.emt.enabled && EffectiveIsIbr(s.connection) && emt.status in {Pass, BorderlineStatus} ==> emt.linked)
  {
    if s.emt.enabled && ValidThresholds(s.emt) {
      EmtOutcome(s);
      ScreenMeaning(s.emtGrid, s.connection, s.emt.scrThreshold, s.emt.borderlineMargin);
    }
  }

  // ---- the verdict, end to end ----

  ghost predicate NetworkAccepts(s: Study) {
    && Cia.SteadyClean(s.grid, s.connection, s.threshold)
    && (s.enableContingency ==> Cia.ContingencyClean(s.grid, s.connection, CiaOptionsOf(s)))
  }

  /** The baseline or the project's power flow diverges, or the project causes a hard finding or fails an outage. */
  ghost predicate NetworkRejects(s: Study) {
    || s.grid.flow(None, None).Diverged?
    || Cia.PostDiverges(s.grid, s.connection)
    || (Cia.Solves(s.grid, s.connection)
        && (Cia.HardCaused(s.grid, s.connection, s.threshold) || Cia.ContingencyFails(s.grid, s.connection, CiaOptionsOf(s))))
  }

  // The verdict as a function of the three statuses alone.
  lemma VerdictOfStatuses(m1: StageView, m2: StageView, emt: StageView, t: TransientRequest, e: EmtRequest)
    requires m1.status in {Pass, BorderlineStatus, Fail, Error}
    requires t.enabled ==> m2.status in {Pass, BorderlineStatus, Fail, NotReady, Unavailable}
    requires e.enabled ==> emt.status in {Pass, Skipped, BorderlineStatus, Fail, Unavailable}
    ensures var v := IntegratedRecommendation(m1, m2, emt, t, e);
      var m2Missing := t.enabled && (m2.status.NotReady? || m2.status.Unavailable?);
      var m2Allows := t.enabled ==> m2.status.Pass? || (m2Missing && !t.requiredForApproval);
      var emtAllows := e.enabled ==> emt.status.Pass? || emt.status.Skipped? || (emt.status.Unavailable? && !e.requiredForApproval);
      && (v.recommendation.Approve? <==> m1.status.Pass? && m2Allows && emtAllows)
      && (v.recommendation.Reject? <==> (m1.status.Fail? || m1.status.Error? || (m1.status.Pass? &&
            ((t.enabled && m2.status.Fail?) || (m2Allows && e.enabled && emt.status.Fail?)))))
      && (v.recommendation.Approve? ==> v.complete)
      && (!v.complete <==> (m1.status.Error? || (m1.status.Pass? &&
            ((m2Missing && t.requiredForApproval)
             || (m2Allows && e.enabled && emt.status.Unavailable? && e.requiredForApproval)))))
  {
  }

  // The baseline solves and the connection cannot be attached.
  predicate CannotAttach(s: Study) { s.grid.flow(None, None).Converged? && AttachError(s.grid, s.connection).Some? }

  lemma M1Statuses(s: Study)
    requires C.Injective(s.repr)
    ensures var r := Cia.Run(s.grid, s.connection, CiaOptionsOf(s), s.repr);
      && (r.Err? <==> CannotAttach(s))
      && (r.Ok? ==> M1Stage(r.value).status in {Pass, BorderlineStatus, Fail, Error})
      && (r.Ok? ==> (M1Stage(r.value).status.Error? <==> s.grid.flow(None, None).Diverged?))
      && (NetworkAccepts(s) <==> r.Ok? && M1Stage(r.value).status.Pass?)
      && (NetworkRejects(s) <==> r.Ok? && M1Stage(r.value).status in {Fail, Error})
  {
    Cia.ApprovalIsExact(s.grid, s.connection, CiaOptionsOf(s), s.repr);
    Cia.OnlyBaselineFails(s.grid, s.connection, CiaOptionsOf(s), s.repr);
    Cia.VerdictIsExact(s.grid, s.connection, CiaOptionsOf(s), s.repr);
  }

  // A later stage rejects what the network accepts.
  predicate LaterRejects(s: Study) {
    (s.transient.enabled && TransientFailed(s)) || (TransientAllows(s) && s.emt.enabled && EmtFailed(s))
  }

  predicate LaterMissing(s: Study) { TransientMissing(s) || (TransientAllows(s) && EmtMissing(s)) }

  // The equations `true == P(..)` keep a predicate one fact for the verifier.
  // The verdict of an assessment whose steady-state stage did not raise.
  lemma DecidedVerdict(s: Study)
    requires C.Injective(s.repr) && !CannotAttach(s)
    ensures var report := Cia.Run(s.grid, s.connection, CiaOptionsOf(s), s.repr);
      && report.Ok?
      && (var v := IntegratedRecommendation(M1Stage(report.value), M2StageOf(s), EmtStageOf(s), s.transient, s.emt);
          && (v.recommendation.Approve? <==> true == NetworkAccepts(s) && true == TransientAllows(s) && true == EmtAllows(s))
          && (v.recommendation.Reject? <==> true == NetworkRejects(s) || (true == NetworkAccepts(s) && true == LaterRejects(s)))
          && (v.recommendation.Approve? ==> v.complete)
          && (!v.complete <==> s.grid.flow(None, None).Diverged? || (true == NetworkAccepts(s) && true == LaterMissing(s))))
  {
    M1Statuses(s);
    LaterVerdict(s, M1Stage(Cia.Run(s.grid, s.connection, CiaOptionsOf(s), s.repr).value));
  }

  lemma LaterVerdict(s: Study, m1: StageView)
    requires m1.status in {Pass, BorderlineStatus, Fail, Error}
    ensures var v := IntegratedRecommendation(m1, M2StageOf(s), EmtStageOf(s), s.transient, s.emt);
      && (v.recommendation.Approve? <==> m1.status.Pass? && true == TransientAllows(s) && true == EmtAllows(s))
      && (v.recommendation.Reject? <==> m1.status.Fail? || m1.status.Error? || (m1.status.Pass? && true == LaterRejects(s)))
      && (v.recommendation.Approve? ==> v.complete)
      && (!v.complete <==> m1.status.Error? || (m1.status.Pass? && true == LaterMissing(s)))
  {
    if s.transient.enabled {
      TransientOutcome(s);
    }
    if s.emt.enabled {
      EmtOutcome(s);
    }
    VerdictOfStatuses(m1, M2StageOf(s), EmtStageOf(s), s.transient, s.emt);
  }

  // The assessment of a project the network accepts is decided by the later stages.
  lemma AcceptedVerdict(s: Study) returns (m1: StageView)
    requires C.Injective(s.repr) && NetworkAccepts(s)
    ensures m1.status.Pass?
    ensures Assess(s, NotStrict) == Ok(IntegratedRecommendation(m1, M2StageOf(s), EmtStageOf(s), s.transient, s.emt))
  {
    M1Statuses(s);
    m1 := M1Stage(Cia.Run(s.grid, s.connection, CiaOptionsOf(s), s.repr).value);
  }

  /** Approval, end to end: the network accepts the project and every enabled stage passed, or was neither
      available nor required. It raises exactly when the connection cannot be attached outside strict alignment. */
  lemma ApprovalIsExact(s: Study, data: CaseData)
    requires C.Injective(s.repr)
    ensures var r := Assess(s, data);
      && (r.Err? <==> data.NotStrict? && CannotAttach(s))
      && (r.Ok? && r.value.recommendation.Approve? <==>
            !data.StrictUnavailable? && NetworkAccepts(s) && TransientAllows(s) && EmtAllows(s))
      && (r.Ok? && r.value.recommendation.Approve? ==> r.value.complete)
  {
    M1Statuses(s);
    if !CannotAttach(s) {
      DecidedVerdict(s);
    }
  }

  /** Rejection, end to end: the network rejects the project, or it accepts it and the first later stage that decides
      fails. */
  lemma RejectionIsExact(s: Study, data: CaseData)
    requires C.Injective(s.repr)
    ensures var r := Assess(s, data);
      (r.Ok? && r.value.recommendation.Reject? <==>
        !data.StrictUnavailable? && (NetworkRejects(s) || (NetworkAccepts(s) && LaterRejects(s))))
  {
    M1Statuses(s);
    if !CannotAttach(s) {
      DecidedVerdict(s);
    }
  }

  /** A verdict is incomplete exactly when case data is missing, the connection cannot be attached, the baseline failed,
      or the first stage that decides is required and could not be had. */
  lemma IncompleteIsExact(s: Study, data: CaseData)
    requires C.Injective(s.repr)
    ensures var r := Assess(s, data);
      r.Ok? ==> (!r.value.complete <==>
        data.StrictUnavailable? || CannotAttach(s) || s.grid.flow(None, None).Diverged? || (NetworkAccepts(s) && LaterMissing(s)))
  {
    M1Statuses(s);
    if !CannotAttach(s) {
      DecidedVerdict(s);
    }
  }

  /** The verdict carries the reasons of every stage, in order and marked with the stage. */
  lemma ReasonsCarried(m1: StageView, m2: StageView, emt: StageView, t: TransientRequest, e: EmtRequest)
    ensures var codes := IntegratedRecommendation(m1, m2, emt, t, e).reasonCodes;
      var k, n, m := |m1.reasonCodes|, |m2.reasonCodes|, |emt.reasonCodes|;
      && |codes| >= 1 + k + n + m
      && (forall i: nat | i < k :: codes[1 + i] == "m1_" + m1.reasonCodes[i])
      && (forall i: nat | i < n :: codes[1 + k + i] == "m2_" + m2.reasonCodes[i])
      && (forall i: nat | i < m :: codes[1 + k + n + i] == "emt_" + emt.reasonCodes[i])
  {
    var marked := CarriedReasons(m1, m2, emt);
    var codes := IntegratedRecommendation(m1, m2, emt, t, e).reasonCodes;
    assert marked <= codes;
  }

  /** Worsening only the EMT outcome never improves the verdict. */
  lemma EmtMonotone(m1: StageView, m2: StageView, emt: StageView, worse: StageView, t: TransientRequest, e: EmtRequest)
    requires emt.status in {Pass, BorderlineStatus, Fail} && worse.status in {Pass, BorderlineStatus, Fail}
    requires OutcomeRank(worse.status) <= OutcomeRank(emt.status)
    ensures VerdictRank(IntegratedRecommendation(m1, m2, worse, t, e).recommendation)
         <= VerdictRank(IntegratedRecommendation(m1, m2, emt, t, e).recommendation)
  {
  }

  /** Not so for M1: a borderline M1 returns before a later rejection is seen, so it improves on a passing M1
      exactly where the later stages reject. */
  lemma BorderlineM1ImprovesExactly(m1: StageView, m2: StageView, emt: StageView, t: TransientRequest, e: EmtRequest)
    requires m1.status.Pass?
    ensures VerdictRank(IntegratedRecommendation(m1.(status := BorderlineStatus), m2, emt, t, e).recommendation)
          > VerdictRank(IntegratedRecommendation(m1, m2, emt, t, e).recommendation)
      <==> ((t.enabled && m2.status.Fail?)
        || (e.enabled && emt.status.Fail? &&
            (!t.enabled || m2.status.Pass? || (!m2.status.BorderlineStatus? && !t.requiredForApproval))))
  {
  }

  /** Nor for M2: a borderline M2 improves on a passing one exactly where the EMT screen fails. */
  lemma BorderlineM2ImprovesExactly(m1: StageView, m2: StageView, emt: StageView, t: TransientRequest, e: EmtRequest)
    requires m2.status.Pass? && t.enabled
    ensures VerdictRank(IntegratedRecommendation(m1, m2.(status := BorderlineStatus), emt, t, e).recommendation)
          > VerdictRank(IntegratedRecommendation(m1, m2, emt, t, e).recommendation)
      <==> m1.status !in {Error, Fail, BorderlineStatus} && e.enabled && emt.status.Fail?
  {
  }
}
