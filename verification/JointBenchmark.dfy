/** Generated benchmark scenarios, their labels and templates, and the checks they are held to. */
module JointBenchmark {
  import opened Prelude
  import opened GridModel
  import opened Stages
  import opened JsonPaths
  import Integrated

  // ---- the template model of the EMT screen ----

  type Hypot = (real, real) -> real

  datatype Proposal = Proposal(bus: int, pMw: real, connectionType: string, isIbr: bool, qMvar: Option<real>)

  function ConnectionOf(p: Proposal, vmPu: real): Connection {
    Connection(p.bus, p.pMw, p.connectionType, p.isIbr, if p.qMvar.Some? then p.qMvar.value else 0.0, vmPu)
  }

  // Short-circuit strengths standing in for the IEEE 14-bus network.
  function TemplateStrength(bus: int): real {
    match bus
    case 5 => 52.0
    case 6 => 38.0
    case 9 => 42.0
    case 10 => 45.8
    case 14 => 30.0
    case _ => 40.0
  }

  predicate IsIbr(p: Proposal) { p.isIbr || p.connectionType in IBR_TYPES }

  function Mva(hypot: Hypot, p: Proposal): real { hypot(p.pMw, if p.qMvar.Some? then p.qMvar.value else 0.0) }

  function EmtTemplateStatus(scr: real, threshold: real, margin: real): Status {
    if scr >= threshold + margin then Pass else if scr >= threshold then BorderlineStatus else Fail
  }

  /** `_generated_emt_status` */
  function GeneratedEmtStatus(hypot: Hypot, p: Proposal, threshold: real): Status {
    if !IsIbr(p) then Skipped
    else if Mva(hypot, p) <= 0.0 then Fail
    else EmtTemplateStatus(TemplateStrength(p.bus) / Mva(hypot, p), threshold, 0.25)
  }

  // ---- labels ----

  /** `_generated_recommendation`; None when the scenario has no EMT part. */
  function GeneratedRecommendation(transientRequired: bool, m2: Status, emt: Option<Status>): Recommendation {
    if transientRequired && m2.Fail? then Reject
    else if m2.BorderlineStatus? then BorderlineVerdict
    else if emt == Some(Fail) then Reject
    else if emt == Some(BorderlineStatus) then BorderlineVerdict
    else Approve
  }

  function StageWith(status: Status, required: bool): Integrated.StageView {
    Integrated.StageView(status, Some(status.Pass?), required, [], true)
  }

  /** The verdict of the real decision function for a passing M1 and the given M2 and EMT statuses. */
  function RealRecommendation(m2: Status, emt: Option<Status>, t: Integrated.TransientRequest, e: Integrated.EmtRequest): Recommendation {
    Integrated.IntegratedRecommendation(
      StageWith(Pass, true), StageWith(m2, t.requiredForApproval),
      StageWith(if emt.Some? then emt.value else Skipped, e.requiredForApproval), t, e).recommendation
  }

  /** The label agrees with the real decision except for an advisory M2 failure that no EMT failure rejects anyway, a
      required M2 stage without an outcome that no borderline EMT screen masks, and a required EMT stage without an
      outcome behind an M2 stage that lets it decide. */
  lemma LabelAgreesExactly(m2: Status, emt: Option<Status>, t: Integrated.TransientRequest, e: Integrated.EmtRequest)
    requires t.enabled && e.enabled == emt.Some?
    ensures (GeneratedRecommendation(t.requiredForApproval, m2, emt) == RealRecommendation(m2, emt, t, e)) <==>
      (!(m2.Fail? && !t.requiredForApproval && emt != Some(Fail))
       && !(m2 !in {Pass, BorderlineStatus, Fail} && t.requiredForApproval && emt != Some(BorderlineStatus))
       && !(emt.Some? && emt.value !in {Pass, Skipped, BorderlineStatus, Fail} && e.requiredForApproval
            && (m2.Pass? || (m2 !in {Pass, BorderlineStatus, Fail} && !t.requiredForApproval))))
  {
  }

  // ---- scenarios ----

  datatype Disturbance =
    | BusFault(bus: int, start: real, clearing: real)
    | OtherDisturbance(kind: string)

  // The EMT block of a request; fields may be left out.
  datatype EmtPayload = EmtPayload(enabled: Option<bool>, required: Option<bool>, scrThreshold: Option<real>)

  datatype JointSpec = JointSpec(
    casePath: string,
    transientCasePath: string,
    proposal: Proposal,
    disturbance: Disturbance,
    required: bool,
    m2Status: Status,
    m2Ok: bool,
    emt: Option<EmtPayload>,
    emtStatus: Option<Status>,
    recommendation: Recommendation,
    complete: bool,
    strict: bool)

  function StatusText(s: Status): string {
    match s
    case Pass => "pass" case BorderlineStatus => "borderline" case Fail => "fail" case Skipped => "skipped"
    case NotRun => "not_run" case NotImplemented => "not_implemented" case NotReady => "not_ready"
    case Unavailable => "unavailable" case Error => "error"
  }

  function RecommendationText(r: Recommendation): string {
    match r case Approve => "approve" case BorderlineVerdict => "borderline" case Reject => "reject"
  }

  function StatusJson(s: Status): Json { Chars(StatusText(s)) }

  const M1_STAGE := Chars("m1_steady_state_cia")
  const M2_STAGE := Chars("m2_transient_stability")
  const EMT_STAGE := Chars("f4_emt_screening")
  const POST_CONNECTION_SCREEN := Chars("post_connection_scr_screen")
  const SCREEN_NOT_APPLIED := Chars("emt_screen_not_applied")
  const NOT_REQUESTED := Chars("not_requested")
  const BUS_FAULT := "bus_fault"

  // ---- the tool arguments of a scenario ----

  function DisturbanceJson(d: Disturbance): Json {
    match d
    case BusFault(bus, start, clearing) =>
      Obj(map[TypeKey := Chars(BUS_FAULT), BusKey := Int(bus), FaultStartKey := Float(start), ClearingTimeKey := Float(clearing)])
    case OtherDisturbance(kind) => Obj(map[TypeKey := Chars(kind)])
  }

  function ConnectionJson(p: Proposal): Json {
    var fields := map[BusKey := Int(p.bus), PMwKey := Float(p.pMw), ConnectionTypeKey := Chars(p.connectionType), IsIbrKey := Bool(p.isIbr)];
    Obj(if p.qMvar.Some? then fields[QMvarKey := Float(p.qMvar.value)] else fields)
  }

  function TransientJson(s: JointSpec): Json {
    Obj(map[EnabledKey := Bool(true), RequiredKey := Bool(s.required), CasePathKey := Chars(s.transientCasePath),
      DisturbanceKey := DisturbanceJson(s.disturbance)])
  }

  function EmtPayloadJson(e: EmtPayload): Json {
    var f0: map<Part, Json> := if e.enabled.Some? then map[EnabledKey := Bool(e.enabled.value)] else map[];
    var f1 := if e.required.Some? then f0[RequiredKey := Bool(e.required.value)] else f0;
    Obj(if e.scrThreshold.Some? then f1[ScrThresholdKey := Float(e.scrThreshold.value)] else f1)
  }

  function Arguments(s: JointSpec): Json {
    var fields := map[CasePathKey := Chars(s.casePath), ConnectionKey := ConnectionJson(s.proposal), TransientKey := TransientJson(s)];
    Obj(if s.emt.Some? then fields[EmtKey := EmtPayloadJson(s.emt.value)] else fields)
  }

  // ---- the template result ----

  const UNSUPPORTED_DYNAMIC_CASE := "unsupported_dynamic_case"

  // The dynamic case falls back on the steady-state one when left empty.
  predicate DynamicAvailable(normalize: Normalizer, s: JointSpec) {
    normalize(if s.transientCasePath != "" then s.transientCasePath else s.casePath) != UNSUPPORTED_DYNAMIC_CASE
  }

  function ApplicationJson(applied: bool): Json { Obj(map[AppliedKey := Bool(applied)]) }

  function M2Json(normalize: Normalizer, s: JointSpec): Json {
    var available := DynamicAvailable(normalize, s);
    Obj(map[OkKey := Bool(available && s.m2Ok), DynamicModelingKey := Bool(available),
      ConnectionApplicationKey := ApplicationJson(available)])
  }

  datatype EmtOutcome = EmtOutcome(status: Status, passed: bool, scr: Option<real>, applied: bool)

  predicate EmtEnabled(s: JointSpec) { s.emt.Some? && s.emt.value.enabled == Some(true) }

  /** What `_emt_template` reports for an enabled screen; a status given by the caller overrides the computed one. */
  function EmtOutcomeOf(hypot: Hypot, p: Proposal, e: EmtPayload, status: Option<Status>): EmtOutcome {
    var threshold := if e.scrThreshold.Some? then e.scrThreshold.value else 3.0;
    if !IsIbr(p) then
      var actual := Override(status, Skipped);
      EmtOutcome(actual, actual.Skipped?, None, false)
    else if Mva(hypot, p) <= 0.0 then EmtOutcome(Override(status, Fail), false, None, false)
    else
      var scr := TemplateStrength(p.bus) / Mva(hypot, p);
      var actual := Override(status, EmtTemplateStatus(scr, threshold, 0.25));
      EmtOutcome(actual, actual.Pass?, Some(scr), true)
  }

  function Override(given: Option<Status>, computed: Status): Status { if given.Some? then given.value else computed }

  function TemplateOutcome(hypot: Hypot, s: JointSpec): Option<EmtOutcome> {
    if EmtEnabled(s) then Some(EmtOutcomeOf(hypot, s.proposal, s.emt.value, s.emtStatus)) else None
  }

  function ScrJson(scr: Option<real>): Json { if scr.Some? then Float(scr.value) else Null }

  function EmtResultJson(o: Option<EmtOutcome>): Json {
    if o.None? then Null
    else
      Obj(map[OkKey := Bool(true),
        EmtKey := Obj(map[StatusKey := StatusJson(o.value.status), PassedKey := Bool(o.value.passed)]),
        ConnectionApplicationKey := ApplicationJson(o.value.applied),
        MetricsKey := Obj(map[ScrKey := ScrJson(o.value.scr)])])
  }

  function EmtStageStatus(o: Option<EmtOutcome>): Status { if o.Some? then o.value.status else Skipped }

  function StageJson(stage: Json, status: Status): Json { Obj(map[StageKey := stage, StatusKey := StatusJson(status)]) }

  predicate EmtApplied(o: Option<EmtOutcome>) { o.Some? && o.value.applied }

  function LinkageJson(o: Option<EmtOutcome>): Json {
    Obj(map[EmtModelsKey := Bool(EmtApplied(o)),
      EmtLinkageKey := if o.None? then NOT_REQUESTED else if o.value.applied then POST_CONNECTION_SCREEN else SCREEN_NOT_APPLIED])
  }

  function SummaryJson(s: JointSpec, o: Option<EmtOutcome>): Json {
    Obj(map[M1RecommendationKey := Chars(RecommendationText(Approve)), M2StatusKey := StatusJson(s.m2Status),
      EmtStatusKey := StatusJson(EmtStageStatus(o)), EmtScrKey := ScrJson(if o.Some? then o.value.scr else None)])
  }

  /** `_integrated_template`, as far as the checks look into it. */
  function Template(normalize: Normalizer, hypot: Hypot, s: JointSpec): Json {
    var o := TemplateOutcome(hypot, s);
    Obj(map[OkKey := Bool(true), RecommendationKey := Chars(RecommendationText(s.recommendation)), CompleteKey := Bool(s.complete),
      StageReportsKey := Arr([StageJson(M1_STAGE, Pass), StageJson(M2_STAGE, s.m2Status), StageJson(EMT_STAGE, EmtStageStatus(o))]),
      M2ResultKey := M2Json(normalize, s), EmtResultKey := EmtResultJson(o),
      LinkageKey := LinkageJson(o), SummaryKey := SummaryJson(s, o)])
  }

  // ---- what a scenario expects ----

  datatype ArgumentCheck = ArgumentCheck(path: Path, expected: Json)

  datatype ResultCheck = ResultCheck(path: Path, expected: Expected)

  datatype Comparison = Comparison(tool: Path, oracle: Path, tolerance: Option<real>, compareValue: bool)

  function ExpectedEmtArguments(e: EmtPayload): seq<ArgumentCheck> {
    var enabled := e.enabled.None? || e.enabled.value;
    [ArgumentCheck([EmtKey, EnabledKey], Bool(enabled)),
     ArgumentCheck([EmtKey, RequiredKey], Bool(if e.required.Some? then e.required.value else enabled))]
    + if e.scrThreshold.Some? then [ArgumentCheck([EmtKey, ScrThresholdKey], Float(e.scrThreshold.value))] else []
  }

  function ExpectedFault(d: Disturbance): seq<ArgumentCheck> {
    match d
    case BusFault(bus, start, clearing) =>
      [ArgumentCheck([TransientKey, DisturbanceKey, BusKey], Int(bus)),
       ArgumentCheck([TransientKey, DisturbanceKey, FaultStartKey], Float(start)),
       ArgumentCheck([TransientKey, DisturbanceKey, ClearingTimeKey], Float(clearing))]
    case OtherDisturbance(_) => []
  }

  function ExpectedProposal(p: Proposal): seq<ArgumentCheck> {
    [ArgumentCheck([ConnectionKey, BusKey], Int(p.bus)),
     ArgumentCheck([ConnectionKey, PMwKey], Float(p.pMw)),
     ArgumentCheck([ConnectionKey, ConnectionTypeKey], Chars(p.connectionType)),
     ArgumentCheck([ConnectionKey, IsIbrKey], Bool(p.isIbr))]
    + if p.qMvar.Some? then [ArgumentCheck([ConnectionKey, QMvarKey], Float(p.qMvar.value))] else []
  }

  function ExpectedTransient(s: JointSpec): seq<ArgumentCheck> {
    [ArgumentCheck([CasePathKey], Chars(s.casePath)),
     ArgumentCheck([TransientKey, EnabledKey], Bool(true)),
     ArgumentCheck([TransientKey, RequiredKey], Bool(s.required)),
     ArgumentCheck([TransientKey, CasePathKey], Chars(s.transientCasePath)),
     ArgumentCheck([TransientKey, DisturbanceKey, TypeKey], Chars(if s.disturbance.BusFault? then BUS_FAULT else s.disturbance.kind))]
  }

  function ExpectedArguments(s: JointSpec): seq<ArgumentCheck> {
    ExpectedTransient(s) + ExpectedProposal(s.proposal)
    + (if s.emt.Some? then ExpectedEmtArguments(s.emt.value) else []) + ExpectedFault(s.disturbance)
  }

  function ExpectedStages(): seq<ResultCheck> {
    [ResultCheck([StageReportsKey, Index(0), StageKey], Exactly(M1_STAGE)),
     ResultCheck([StageReportsKey, Index(0), StatusKey], AnyValue),
     ResultCheck([StageReportsKey, Index(1), StageKey], Exactly(M2_STAGE)),
     ResultCheck([StageReportsKey, Index(1), StatusKey], AnyValue),
     ResultCheck([SummaryKey, M1RecommendationKey], AnyValue),
     ResultCheck([SummaryKey, M2StatusKey], AnyValue)]
  }

  function ExpectedM2(): seq<ResultCheck> {
    [ResultCheck([M2ResultKey, DynamicModelingKey], Exactly(Bool(true))),
     ResultCheck([M2ResultKey, ConnectionApplicationKey, AppliedKey], Exactly(Bool(true)))]
  }

  function ExpectedEmtStatus(s: JointSpec, o: Option<EmtOutcome>): seq<ResultCheck> {
    var status := if s.strict then Exactly(StatusJson(EmtStageStatus(o))) else AnyValue;
    [ResultCheck([StageReportsKey, Index(2), StageKey], Exactly(EMT_STAGE)),
     ResultCheck([StageReportsKey, Index(2), StatusKey], status),
     ResultCheck([SummaryKey, EmtStatusKey], status),
     ResultCheck([EmtResultKey, EmtKey, StatusKey], status),
     ResultCheck([LinkageKey, EmtModelsKey], Exactly(Bool(EmtApplied(o))))]
  }

  function ExpectedScreen(applied: bool): seq<ResultCheck> {
    if applied then
      [ResultCheck([EmtResultKey, ConnectionApplicationKey, AppliedKey], Exactly(Bool(true))),
       ResultCheck([EmtResultKey, MetricsKey, ScrKey], AnyValue),
       ResultCheck([LinkageKey, EmtLinkageKey], Exactly(POST_CONNECTION_SCREEN))]
    else [ResultCheck([LinkageKey, EmtLinkageKey], Exactly(SCREEN_NOT_APPLIED))]
  }

  function ExpectedResults(s: JointSpec, o: Option<EmtOutcome>): seq<ResultCheck> {
    ExpectedStages() + (if s.m2Ok then ExpectedM2() else [])
    + (if s.emt.Some? then ExpectedEmtStatus(s, o) + ExpectedScreen(EmtApplied(o)) else [])
  }

  function Both(path: Path): Comparison { Comparison([ToolKey] + path, [OracleKey] + path, None, false) }

  function BaseComparisons(): seq<Comparison> {
    [Both([RecommendationKey]), Both([CompleteKey]), Both([SummaryKey, M1RecommendationKey]), Both([SummaryKey, M2StatusKey]),
     Both([M2ResultKey, DynamicModelingKey]), Both([M2ResultKey, ConnectionApplicationKey, AppliedKey])]
  }

  function EmtComparisons(applied: bool): seq<Comparison> {
    [Both([SummaryKey, EmtStatusKey]), Both([EmtResultKey, EmtKey, StatusKey]), Both([LinkageKey, EmtModelsKey])]
    + if applied then [Both([SummaryKey, EmtScrKey]), Both([EmtResultKey, MetricsKey, ScrKey])] else []
  }

  function Comparisons(s: JointSpec, o: Option<EmtOutcome>): seq<Comparison> {
    BaseComparisons() + if s.emt.Some? then EmtComparisons(EmtApplied(o)) else []
  }

  const INTEGRATED_TOOL := "run_integrated_assessment"

  datatype Scenario = Scenario(
    id: string,
    spec: JointSpec,
    expectedTool: Option<string>,
    oracleTool: Option<string>,
    oracleArguments: Json,
    oracleTemplate: Json,
    expectedArguments: seq<ArgumentCheck>,
    expectedResults: seq<ResultCheck>,
    comparisons: seq<Comparison>)

  /** `_joint_scenario` */
  function JointScenario(normalize: Normalizer, hypot: Hypot, id: string, s: JointSpec): Scenario {
    var o := TemplateOutcome(hypot, s);
    Scenario(id, s, Some(INTEGRATED_TOOL), Some(INTEGRATED_TOOL), Arguments(s), Template(normalize, hypot, s), ExpectedArguments(s), ExpectedResults(s, o), Comparisons(s, o))
  }
}
