/** The benchmark's checks of its own scenarios. */
module JointChecks {
  import opened Prelude
  import opened JsonPaths
  import opened JointBenchmark
  import Stages

  function ArgumentVerdict(normalize: Normalizer, arguments: Json): ArgumentCheck -> bool {
    (c: ArgumentCheck) => ArgumentPasses(normalize, arguments, c.path, c.expected)
  }

  predicate ResultPasses(normalize: Normalizer, result: Json, c: ResultCheck) {
    var found := Resolve(result, c.path);
    found.Some? && ValueMatches(normalize, found.value, c.expected, None, c.path)
  }

  function ResultVerdict(normalize: Normalizer, result: Json): ResultCheck -> bool {
    (c: ResultCheck) => ResultPasses(normalize, result, c)
  }

  function Context(tool: Json, oracle: Json): Json { Obj(map[ToolKey := tool, OracleKey := oracle]) }

  predicate ComparisonPasses(normalize: Normalizer, context: Json, c: Comparison) {
    var actual, expected := Resolve(context, c.tool), Resolve(context, c.oracle);
    && actual.Some? && expected.Some?
    && (c.compareValue ==> ValueMatches(normalize, actual.value, Exactly(expected.value), c.tolerance, c.tool))
  }

  function ComparisonVerdict(normalize: Normalizer, context: Json): Comparison -> bool {
    (c: Comparison) => ComparisonPasses(normalize, context, c)
  }

  // Whether the oracle runs the expected tool; no verdict when no tool is expected.
  function ToolAlignment(scenario: Scenario): seq<bool> {
    if scenario.expectedTool.Some? then [scenario.oracleTool == scenario.expectedTool] else []
  }

  /** `_oracle_argument_checks` */
  method OracleArgumentChecks(normalize: Normalizer, scenario: Scenario) returns (passed: seq<bool>)
    ensures passed == ToolAlignment(scenario) + Map(scenario.expectedArguments, ArgumentVerdict(normalize, scenario.oracleArguments))
    ensures AllTrue(passed) <==>
      (AllTrue(ToolAlignment(scenario)) && All(scenario.expectedArguments, ArgumentVerdict(normalize, scenario.oracleArguments)))
  {
    passed := ToolAlignment(scenario);
    var checks := scenario.expectedArguments;
    ghost var verdict := ArgumentVerdict(normalize, scenario.oracleArguments);
    for k := 0 to |checks|
      invariant passed == ToolAlignment(scenario) + Map(checks[..k], verdict)
    {
      MapSnoc(checks[..k], checks[k], verdict);
      TakeNext(checks, k);
      passed := passed + [ArgumentPasses(normalize, scenario.oracleArguments, checks[k].path, checks[k].expected)];
    }
    assert checks[..|checks|] == checks;
    AllMap(checks, verdict);
    AllAppend(ToolAlignment(scenario), Map(checks, verdict), (b: bool) => b);
  }

  /** `_oracle_path_checks` */
  method OraclePathChecks(normalize: Normalizer, scenario: Scenario, result: Json) returns (passed: seq<bool>)
    ensures passed == Map(scenario.expectedResults, ResultVerdict(normalize, result))
                    + Map(scenario.comparisons, ComparisonVerdict(normalize, Context(result, result)))
    ensures AllTrue(passed) <==>
      All(scenario.expectedResults, ResultVerdict(normalize, result)) && All(scenario.comparisons, ComparisonVerdict(normalize, Context(result, result)))
  {
    passed := [];
    var checks := scenario.expectedResults;
    for k := 0 to |checks|
      invariant passed == Map(checks[..k], ResultVerdict(normalize, result))
    {
      var found := ResolvePath(result, checks[k].path);
      passed := passed + [found.Some? && ValueMatches(normalize, found.value, checks[k].expected, None, checks[k].path)];
      TakeNext(checks, k);
    }
    assert checks[..|checks|] == checks;
    ghost var before := passed;
    var comparisons, context := scenario.comparisons, Context(result, result);
    for k := 0 to |comparisons|
      invariant passed == before + Map(comparisons[..k], ComparisonVerdict(normalize, context))
    {
      var tool := ResolvePath(context, comparisons[k].tool);
      var oracle := ResolvePath(context, comparisons[k].oracle);
      passed := passed + [tool.Some? && oracle.Some? && (comparisons[k].compareValue ==>
        ValueMatches(normalize, tool.value, Exactly(oracle.value), comparisons[k].tolerance, comparisons[k].tool))];
      TakeNext(comparisons, k);
    }
    assert comparisons[..|comparisons|] == comparisons;
    AllMap(checks, ResultVerdict(normalize, result));
    AllMap(comparisons, ComparisonVerdict(normalize, context));
    AllAppend(before, Map(comparisons, ComparisonVerdict(normalize, context)), (b: bool) => b);
  }

  // ---- a scenario against its own template ----

  ghost predicate All<T>(s: seq<T>, p: T -> bool) { forall x | x in s :: p(x) }

  ghost predicate AllTrue(s: seq<bool>) { All(s, (b: bool) => b) }

  lemma AllAppend<T>(a: seq<T>, b: seq<T>, p: T -> bool)
    ensures All(a + b, p) <==> All(a, p) && All(b, p)
  {
  }

  lemma AllMap<T(!new)>(s: seq<T>, p: T -> bool)
    ensures All(s, p) <==> AllTrue(Map(s, p))
  {
    if AllTrue(Map(s, p)) {
      forall x | x in s ensures p(x) {
        var i :| 0 <= i < |s| && s[i] == x;
        assert Map(s, p)[i] in Map(s, p);
      }
    }
  }

  ghost predicate PassesOwnChecks(normalize: Normalizer, scenario: Scenario) {
    && AllTrue(ToolAlignment(scenario))
    && All(scenario.expectedArguments, ArgumentVerdict(normalize, scenario.oracleArguments))
    && All(scenario.expectedResults, ResultVerdict(normalize, scenario.oracleTemplate))
    && All(scenario.comparisons, ComparisonVerdict(normalize, Context(scenario.oracleTemplate, scenario.oracleTemplate)))
  }

  // The arguments. `p` accepts every argument found with its expected value.

  ghost predicate AcceptsFound(root: Json, p: ArgumentCheck -> bool) {
    forall c: ArgumentCheck :: Resolve(root, c.path) == Some(c.expected) ==> p(c)
  }

  lemma VerdictAcceptsFound(normalize: Normalizer, root: Json)
    ensures AcceptsFound(root, ArgumentVerdict(normalize, root))
  {
    forall c: ArgumentCheck | Resolve(root, c.path) == Some(c.expected) ensures ArgumentPasses(normalize, root, c.path, c.expected) {
      FoundArgumentPasses(normalize, root, c.path, c.expected);
    }
  }

  lemma TransientArguments(s: JointSpec, root: Json, p: ArgumentCheck -> bool)
    requires AcceptsFound(root, p) && Child(root, CasePathKey) == Some(Chars(s.casePath)) && Child(root, TransientKey) == Some(TransientJson(s))
    ensures All(ExpectedTransient(s), p)
  {
    Resolve1(root, CasePathKey);
    Resolve2(root, TransientKey, EnabledKey);
    Resolve2(root, TransientKey, RequiredKey);
    Resolve2(root, TransientKey, CasePathKey);
    Resolve3(root, TransientKey, DisturbanceKey, TypeKey);
  }

  lemma ProposalArguments(proposal: Proposal, root: Json, p: ArgumentCheck -> bool)
    requires AcceptsFound(root, p) && Child(root, ConnectionKey) == Some(ConnectionJson(proposal))
    ensures All(ExpectedProposal(proposal), p)
  {
    Resolve2(root, ConnectionKey, BusKey);
    Resolve2(root, ConnectionKey, PMwKey);
    Resolve2(root, ConnectionKey, ConnectionTypeKey);
    Resolve2(root, ConnectionKey, IsIbrKey);
    Resolve2(root, ConnectionKey, QMvarKey);
  }

  lemma FaultArguments(s: JointSpec, root: Json, p: ArgumentCheck -> bool)
    requires AcceptsFound(root, p) && Child(root, TransientKey) == Some(TransientJson(s))
    ensures All(ExpectedFault(s.disturbance), p)
  {
    Resolve3(root, TransientKey, DisturbanceKey, BusKey);
    Resolve3(root, TransientKey, DisturbanceKey, FaultStartKey);
    Resolve3(root, TransientKey, DisturbanceKey, ClearingTimeKey);
  }

  lemma EmtRequiredDefaults(normalize: Normalizer, root: Json, e: EmtPayload)
    requires Child(root, EmtKey) == Some(EmtPayloadJson(e)) && e.enabled.Some? && e.required.None?
    ensures ArgumentPasses(normalize, root, [EmtKey, RequiredKey], Bool(e.enabled.value))
  {
    Resolve1(root, EmtKey);
    Resolve2(root, EmtKey, EnabledKey);
    Resolve2(root, EmtKey, RequiredKey);
    assert DefaultEmtRequired(root) == Some(e.enabled.value);
    DefaultRequiredPasses(normalize, root, e.enabled.value);
  }

  lemma DefaultRequiredPasses(normalize: Normalizer, root: Json, required: bool)
    requires Resolve(root, [EmtKey, RequiredKey]).None? && DefaultEmtRequired(root) == Some(required)
    ensures ArgumentPasses(normalize, root, [EmtKey, RequiredKey], Bool(required))
  {
    assert [EmtKey, RequiredKey][0] == EmtKey;
    MatchesItself(normalize, Bool(required), [EmtKey, RequiredKey]);
  }

  // "emt.enabled" has no default.
  lemma EmtEnabledMissing(normalize: Normalizer, root: Json, expected: Json)
    requires Resolve(root, [EmtKey, EnabledKey]).None?
    ensures !ArgumentPasses(normalize, root, [EmtKey, EnabledKey], expected)
  {
  }

  lemma EmtFoundArguments(e: EmtPayload, root: Json, p: ArgumentCheck -> bool)
    requires AcceptsFound(root, p) && Child(root, EmtKey) == Some(EmtPayloadJson(e)) && e.enabled.Some?
    requires e.required.None? ==> p(ArgumentCheck([EmtKey, RequiredKey], Bool(e.enabled.value)))
    ensures All(ExpectedEmtArguments(e), p)
  {
    Resolve2(root, EmtKey, EnabledKey);
    Resolve2(root, EmtKey, RequiredKey);
    Resolve2(root, EmtKey, ScrThresholdKey);
  }

  /** The EMT arguments pass exactly when the block says whether it is enabled. */
  lemma EmtArguments(normalize: Normalizer, e: EmtPayload, root: Json)
    requires Child(root, EmtKey) == Some(EmtPayloadJson(e))
    ensures All(ExpectedEmtArguments(e), ArgumentVerdict(normalize, root)) <==> e.enabled.Some?
  {
    var p := ArgumentVerdict(normalize, root);
    if e.enabled.Some? {
      VerdictAcceptsFound(normalize, root);
      if e.required.None? {
        EmtRequiredDefaults(normalize, root, e);
      }
      EmtFoundArguments(e, root, p);
    } else {
      Resolve2(root, EmtKey, EnabledKey);
      var first := ExpectedEmtArguments(e)[0];
      EmtEnabledMissing(normalize, root, first.expected);
      assert first in ExpectedEmtArguments(e) && !p(first);
    }
  }

  lemma ArgumentsExact(normalize: Normalizer, s: JointSpec)
    ensures All(ExpectedArguments(s), ArgumentVerdict(normalize, Arguments(s)))
      <==> (s.emt.Some? ==> s.emt.value.enabled.Some?)
  {
    var p := ArgumentVerdict(normalize, Arguments(s));
    var emt := if s.emt.Some? then ExpectedEmtArguments(s.emt.value) else [];
    VerdictAcceptsFound(normalize, Arguments(s));
    TransientArguments(s, Arguments(s), p);
    ProposalArguments(s.proposal, Arguments(s), p);
    FaultArguments(s, Arguments(s), p);
    if s.emt.Some? {
      EmtArguments(normalize, s.emt.value, Arguments(s));
    }
    AllAppend(ExpectedTransient(s), ExpectedProposal(s.proposal), p);
    AllAppend(ExpectedTransient(s) + ExpectedProposal(s.proposal), emt, p);
    AllAppend(ExpectedTransient(s) + ExpectedProposal(s.proposal) + emt, ExpectedFault(s.disturbance), p);
  }

  // ---- what passing arguments and results say ----

  // The number at a path, up to a billionth.
  predicate ShowsNumber(root: Json, path: Path, x: real) {
    var found := Resolve(root, path);
    found.Some? && IsNumber(found.value) && -0.000000001 <= NumberOf(found.value).value - x <= 0.000000001
  }

  // As a number, so that 1 stands for true.
  predicate ShowsExactly(root: Json, path: Path, x: real) {
    var found := Resolve(root, path);
    found.Some? && NumberOf(found.value) == Some(x)
  }

  predicate ShowsText(root: Json, path: Path, s: string) { Resolve(root, path) == Some(Chars(s)) }

  // In what follows an equation `true == P(..)` keeps a predicate one fact for the verifier.

  lemma CheckedNumber(normalize: Normalizer, root: Json, key: Part, x: real)
    requires key in {PMwKey, QMvarKey} && true == ArgumentPasses(normalize, root, [ConnectionKey, key], Float(x))
    ensures true == ShowsNumber(root, [ConnectionKey, key], x)
  {
    NotDefaultable([ConnectionKey, key]);
  }

  lemma CheckedValue(normalize: Normalizer, root: Json, key: Part, expected: Json)
    requires key in {BusKey, ConnectionTypeKey, IsIbrKey}
    requires true == ArgumentPasses(normalize, root, [ConnectionKey, key], expected) && !expected.Float?
    ensures expected.Chars? ==> true == ShowsText(root, [ConnectionKey, key], expected.s)
    ensures NumberOf(expected).Some? ==> true == ShowsExactly(root, [ConnectionKey, key], NumberOf(expected).value)
  {
    NotDefaultable([ConnectionKey, key]);
  }

  lemma NotDefaultable(path: Path)
    requires |path| == 2 && path[0] == ConnectionKey
    ensures path !in DEFAULTABLE && path != [TransientKey, CasePathKey] && path != [EmtKey, RequiredKey]
  {
    assert [TransientKey, EnabledKey][0] == TransientKey && [TransientKey, RequiredKey][0] == TransientKey;
    assert [EmtKey, ScrThresholdKey][0] == EmtKey && [EmtKey, BorderlineMarginKey][0] == EmtKey;
    assert [TransientKey, CasePathKey][0] == TransientKey && [EmtKey, RequiredKey][0] == EmtKey;
  }

  lemma ProposalChecked(s: JointSpec, p: ArgumentCheck -> bool)
    requires All(ExpectedArguments(s), p)
    ensures All(ExpectedProposal(s.proposal), p)
  {
    var emt := if s.emt.Some? then ExpectedEmtArguments(s.emt.value) else [];
    AllAppend(ExpectedTransient(s) + ExpectedProposal(s.proposal) + emt, ExpectedFault(s.disturbance), p);
    AllAppend(ExpectedTransient(s) + ExpectedProposal(s.proposal), emt, p);
    AllAppend(ExpectedTransient(s), ExpectedProposal(s.proposal), p);
  }

  /** Arguments that pass a scenario's checks ask for its project: the same bus, size, type and converter flag, and the same
      reactive power where it has one. */
  lemma PassingArguments(normalize: Normalizer, s: JointSpec, root: Json)
    requires true == All(ExpectedArguments(s), ArgumentVerdict(normalize, root))
    ensures true == ShowsExactly(root, [ConnectionKey, BusKey], s.proposal.bus as real)
    ensures true == ShowsNumber(root, [ConnectionKey, PMwKey], s.proposal.pMw)
    ensures true == ShowsText(root, [ConnectionKey, ConnectionTypeKey], s.proposal.connectionType)
    ensures true == ShowsExactly(root, [ConnectionKey, IsIbrKey], if s.proposal.isIbr then 1.0 else 0.0)
    ensures s.proposal.qMvar.Some? ==> true == ShowsNumber(root, [ConnectionKey, QMvarKey], s.proposal.qMvar.value)
  {
    ProposalChecked(s, ArgumentVerdict(normalize, root));
    ProposalShown(normalize, s.proposal, root);
  }

  lemma ProposalShown(normalize: Normalizer, p: Proposal, root: Json)
    requires true == All(ExpectedProposal(p), ArgumentVerdict(normalize, root))
    ensures true == ShowsExactly(root, [ConnectionKey, BusKey], p.bus as real)
    ensures true == ShowsNumber(root, [ConnectionKey, PMwKey], p.pMw)
    ensures true == ShowsText(root, [ConnectionKey, ConnectionTypeKey], p.connectionType)
    ensures true == ShowsExactly(root, [ConnectionKey, IsIbrKey], if p.isIbr then 1.0 else 0.0)
    ensures p.qMvar.Some? ==> true == ShowsNumber(root, [ConnectionKey, QMvarKey], p.qMvar.value)
  {
    ProposalPasses(normalize, p, root);
    ProposalValues(normalize, p, root);
    CheckedNumber(normalize, root, PMwKey, p.pMw);
    if p.qMvar.Some? {
      CheckedNumber(normalize, root, QMvarKey, p.qMvar.value);
    }
  }

  lemma ProposalValues(normalize: Normalizer, p: Proposal, root: Json)
    requires true == ArgumentPasses(normalize, root, [ConnectionKey, BusKey], Int(p.bus))
    requires true == ArgumentPasses(normalize, root, [ConnectionKey, ConnectionTypeKey], Chars(p.connectionType))
    requires true == ArgumentPasses(normalize, root, [ConnectionKey, IsIbrKey], Bool(p.isIbr))
    ensures true == ShowsExactly(root, [ConnectionKey, BusKey], p.bus as real)
    ensures true == ShowsText(root, [ConnectionKey, ConnectionTypeKey], p.connectionType)
    ensures true == ShowsExactly(root, [ConnectionKey, IsIbrKey], if p.isIbr then 1.0 else 0.0)
  {
    CheckedValue(normalize, root, BusKey, Int(p.bus));
    CheckedValue(normalize, root, ConnectionTypeKey, Chars(p.connectionType));
    CheckedValue(normalize, root, IsIbrKey, Bool(p.isIbr));
  }

  lemma ProposalPasses(normalize: Normalizer, p: Proposal, root: Json)
    requires true == All(ExpectedProposal(p), ArgumentVerdict(normalize, root))
    ensures true == ArgumentPasses(normalize, root, [ConnectionKey, BusKey], Int(p.bus))
    ensures true == ArgumentPasses(normalize, root, [ConnectionKey, PMwKey], Float(p.pMw))
    ensures true == ArgumentPasses(normalize, root, [ConnectionKey, ConnectionTypeKey], Chars(p.connectionType))
    ensures true == ArgumentPasses(normalize, root, [ConnectionKey, IsIbrKey], Bool(p.isIbr))
    ensures p.qMvar.Some? ==> true == ArgumentPasses(normalize, root, [ConnectionKey, QMvarKey], Float(p.qMvar.value))
  {
    var verdict, checks := ArgumentVerdict(normalize, root), ExpectedProposal(p);
    assert verdict(checks[0]) && verdict(checks[1]) && verdict(checks[2]) && verdict(checks[3]);
    assert p.qMvar.Some? ==> verdict(checks[4]);
  }

  /** A result that passes a scenario's checks reports the steady-state and the transient stage under their names, and a
      scenario with an EMT part the EMT stage; a successful transient stage has modelled the connection. */
  lemma PassingResults(normalize: Normalizer, s: JointSpec, o: Option<EmtOutcome>, root: Json)
    requires true == All(ExpectedResults(s, o), ResultVerdict(normalize, root))
    ensures true == ShowsValue(root, [StageReportsKey, Index(0), StageKey], M1_STAGE)
    ensures true == ShowsValue(root, [StageReportsKey, Index(1), StageKey], M2_STAGE)
    ensures s.m2Ok ==> true == ShowsExactly(root, [M2ResultKey, DynamicModelingKey], 1.0)
    ensures s.emt.Some? ==> true == ShowsValue(root, [StageReportsKey, Index(2), StageKey], EMT_STAGE)
    ensures s.emt.Some? && s.strict ==> true == ShowsValue(root, [SummaryKey, EmtStatusKey], StatusJson(EmtStageStatus(o)))
    ensures s.emt.Some? ==> true == ShowsExactly(root, [LinkageKey, EmtModelsKey], if EmtApplied(o) then 1.0 else 0.0)
  {
    var p := ResultVerdict(normalize, root);
    ResultGroups(s, o, p);
    StageChecksPass(normalize, root);
    if s.m2Ok {
      assert p(ExpectedM2()[0]);
      PassingFlag(normalize, root, [M2ResultKey, DynamicModelingKey], true);
    }
    if s.emt.Some? {
      EmtChecksPass(normalize, s, o, root);
    }
  }

  predicate ShowsValue(root: Json, path: Path, value: Json) { Resolve(root, path) == Some(value) }

  lemma ResultGroups(s: JointSpec, o: Option<EmtOutcome>, p: ResultCheck -> bool)
    requires true == All(ExpectedResults(s, o), p)
    ensures true == All(ExpectedStages(), p)
    ensures s.m2Ok ==> true == All(ExpectedM2(), p)
    ensures s.emt.Some? ==> true == All(ExpectedEmtStatus(s, o), p)
  {
    var m2 := if s.m2Ok then ExpectedM2() else [];
    var emt := if s.emt.Some? then ExpectedEmtStatus(s, o) + ExpectedScreen(EmtApplied(o)) else [];
    AllAppend(ExpectedStages() + m2, emt, p);
    AllAppend(ExpectedStages(), m2, p);
    AllAppend(ExpectedEmtStatus(s, o), ExpectedScreen(EmtApplied(o)), p);
  }

  lemma PassingFlag(normalize: Normalizer, root: Json, path: Path, flag: bool)
    requires path != [] && path[|path| - 1] !in {CasePathKey, SourceKey, CaseSourceKey, M1CaseSourceKey, M2CaseSourceKey}
    requires ResultPasses(normalize, root, ResultCheck(path, Exactly(Bool(flag))))
    ensures true == ShowsExactly(root, path, if flag then 1.0 else 0.0)
  {
  }

  lemma PassingText(normalize: Normalizer, root: Json, path: Path, text: string)
    requires path != [] && path[|path| - 1] !in {CasePathKey, SourceKey, CaseSourceKey, M1CaseSourceKey, M2CaseSourceKey}
    requires ResultPasses(normalize, root, ResultCheck(path, Exactly(Chars(text))))
    ensures true == ShowsValue(root, path, Chars(text))
  {
  }

  lemma StageChecksPass(normalize: Normalizer, root: Json)
    requires true == All(ExpectedStages(), ResultVerdict(normalize, root))
    ensures true == ShowsValue(root, [StageReportsKey, Index(0), StageKey], M1_STAGE)
    ensures true == ShowsValue(root, [StageReportsKey, Index(1), StageKey], M2_STAGE)
  {
    var p := ResultVerdict(normalize, root);
    assert p(ExpectedStages()[0]) && p(ExpectedStages()[2]);
    PassingText(normalize, root, [StageReportsKey, Index(0), StageKey], M1_STAGE.s);
    PassingText(normalize, root, [StageReportsKey, Index(1), StageKey], M2_STAGE.s);
  }

  lemma EmtChecksPass(normalize: Normalizer, s: JointSpec, o: Option<EmtOutcome>, root: Json)
    requires true == All(ExpectedEmtStatus(s, o), ResultVerdict(normalize, root))
    ensures true == ShowsValue(root, [StageReportsKey, Index(2), StageKey], EMT_STAGE)
    ensures s.strict ==> true == ShowsValue(root, [SummaryKey, EmtStatusKey], StatusJson(EmtStageStatus(o)))
    ensures true == ShowsExactly(root, [LinkageKey, EmtModelsKey], if EmtApplied(o) then 1.0 else 0.0)
  {
    var p, checks := ResultVerdict(normalize, root), ExpectedEmtStatus(s, o);
    assert p(checks[0]) && p(checks[2]) && p(checks[4]);
    PassingText(normalize, root, [StageReportsKey, Index(2), StageKey], EMT_STAGE.s);
    if s.strict {
      PassingText(normalize, root, [SummaryKey, EmtStatusKey], StatusText(EmtStageStatus(o)));
    }
    PassingFlag(normalize, root, [LinkageKey, EmtModelsKey], EmtApplied(o));
  }

  /** The template shows the label and the statuses of its scenario. */
  lemma TemplateMeaning(normalize: Normalizer, hypot: Hypot, s: JointSpec)
    ensures var root := Template(normalize, hypot, s);
      && Resolve(root, [RecommendationKey]) == Some(Chars(RecommendationText(s.recommendation)))
      && Resolve(root, [CompleteKey]) == Some(Bool(s.complete))
      && Resolve(root, [SummaryKey, M2StatusKey]) == Some(StatusJson(s.m2Status))
      && Resolve(root, [SummaryKey, EmtStatusKey]) ==
           Some(StatusJson(if s.emt.None? || s.emt.value.enabled != Some(true) then Stages.Skipped else TemplateOutcome(hypot, s).value.status))
      && Resolve(root, [M2ResultKey, DynamicModelingKey]) == Some(Bool(DynamicAvailable(normalize, s)))
  {
    var root := Template(normalize, hypot, s);
    Resolve1(root, RecommendationKey);
    Resolve1(root, CompleteKey);
    Resolve2(root, SummaryKey, M2StatusKey);
    Resolve2(root, SummaryKey, EmtStatusKey);
    Resolve2(root, M2ResultKey, DynamicModelingKey);
  }

  // The results. `p` accepts every value found that is the expected one, or any value where any will do.

  ghost predicate AcceptsResults(root: Json, p: ResultCheck -> bool) {
    && (forall c: ResultCheck :: c.expected.Exactly? && Resolve(root, c.path) == Some(c.expected.value) ==> p(c))
    && (forall c: ResultCheck :: c.expected.AnyValue? && Resolve(root, c.path).Some? && !Resolve(root, c.path).value.Null? ==> p(c))
    && (forall c: ResultCheck :: p(c) ==> Resolve(root, c.path).Some?)
    && (forall c: ResultCheck :: p(c) && c.expected == Exactly(Bool(true)) ==> Resolve(root, c.path) != Some(Bool(false)))
  }

  lemma VerdictAcceptsResults(normalize: Normalizer, root: Json)
    ensures AcceptsResults(root, ResultVerdict(normalize, root))
  {
    forall c: ResultCheck | c.expected.Exactly? && Resolve(root, c.path) == Some(c.expected.value) ensures ResultPasses(normalize, root, c) {
      MatchesItself(normalize, c.expected.value, c.path);
    }
    forall c: ResultCheck | ResultPasses(normalize, root, c) && c.expected == Exactly(Bool(true)) ensures Resolve(root, c.path) != Some(Bool(false)) {
      FalseIsNotTrue(normalize, c.path);
    }
  }

  lemma FalseIsNotTrue(normalize: Normalizer, path: Path)
    ensures !ValueMatches(normalize, Bool(false), Exactly(Bool(true)), None, path)
  {
  }

  ghost predicate StagesShown(s: JointSpec, o: Option<EmtOutcome>, root: Json) {
    && Child(root, StageReportsKey) == Some(Arr([StageJson(M1_STAGE, Stages.Pass), StageJson(M2_STAGE, s.m2Status), StageJson(EMT_STAGE, EmtStageStatus(o))]))
    && Child(root, SummaryKey) == Some(SummaryJson(s, o))
  }

  lemma StageValues(s: JointSpec, o: Option<EmtOutcome>, root: Json)
    requires StagesShown(s, o, root)
    ensures Resolve(root, [StageReportsKey, Index(0), StageKey]) == Some(M1_STAGE)
    ensures Resolve(root, [StageReportsKey, Index(0), StatusKey]) == Some(StatusJson(Stages.Pass))
    ensures Resolve(root, [StageReportsKey, Index(1), StageKey]) == Some(M2_STAGE)
    ensures Resolve(root, [StageReportsKey, Index(1), StatusKey]) == Some(StatusJson(s.m2Status))
    ensures Resolve(root, [SummaryKey, M1RecommendationKey]) == Some(Chars(RecommendationText(Stages.Approve)))
    ensures Resolve(root, [SummaryKey, M2StatusKey]) == Some(StatusJson(s.m2Status))
  {
    Resolve3(root, StageReportsKey, Index(0), StageKey);
    Resolve3(root, StageReportsKey, Index(0), StatusKey);
    Resolve3(root, StageReportsKey, Index(1), StageKey);
    Resolve3(root, StageReportsKey, Index(1), StatusKey);
    Resolve2(root, SummaryKey, M1RecommendationKey);
    Resolve2(root, SummaryKey, M2StatusKey);
  }

  lemma StageResults(s: JointSpec, o: Option<EmtOutcome>, root: Json, p: ResultCheck -> bool)
    requires AcceptsResults(root, p) && StagesShown(s, o, root)
    ensures All(ExpectedStages(), p)
  {
    StageValues(s, o, root);
    var checks := ExpectedStages();
    assert p(checks[0]) && p(checks[1]) && p(checks[2]) && p(checks[3]) && p(checks[4]) && p(checks[5]);
  }

  lemma M2Results(normalize: Normalizer, s: JointSpec, root: Json, p: ResultCheck -> bool)
    requires AcceptsResults(root, p) && Child(root, M2ResultKey) == Some(M2Json(normalize, s))
    ensures All(ExpectedM2(), p) <==> DynamicAvailable(normalize, s)
  {
    Resolve2(root, M2ResultKey, DynamicModelingKey);
    Resolve3(root, M2ResultKey, ConnectionApplicationKey, AppliedKey);
    var first := ExpectedM2()[0];
    assert first in ExpectedM2();
    assert Resolve(root, first.path) == Some(Bool(DynamicAvailable(normalize, s)));
  }

  ghost predicate EmtShown(o: Option<EmtOutcome>, root: Json) {
    Child(root, EmtResultKey) == Some(EmtResultJson(o)) && Child(root, LinkageKey) == Some(LinkageJson(o))
  }

  lemma EmtValues(s: JointSpec, o: Option<EmtOutcome>, root: Json)
    requires StagesShown(s, o, root) && EmtShown(o, root)
    ensures Resolve(root, [StageReportsKey, Index(2), StageKey]) == Some(EMT_STAGE)
    ensures Resolve(root, [StageReportsKey, Index(2), StatusKey]) == Some(StatusJson(EmtStageStatus(o)))
    ensures Resolve(root, [SummaryKey, EmtStatusKey]) == Some(StatusJson(EmtStageStatus(o)))
    ensures Resolve(root, [EmtResultKey, EmtKey, StatusKey]) == if o.Some? then Some(StatusJson(EmtStageStatus(o))) else None
    ensures Resolve(root, [LinkageKey, EmtModelsKey]) == Some(Bool(EmtApplied(o)))
  {
    Resolve3(root, StageReportsKey, Index(2), StageKey);
    Resolve3(root, StageReportsKey, Index(2), StatusKey);
    Resolve2(root, SummaryKey, EmtStatusKey);
    Resolve3(root, EmtResultKey, EmtKey, StatusKey);
    Resolve2(root, LinkageKey, EmtModelsKey);
  }

  lemma EmtStatusResults(s: JointSpec, o: Option<EmtOutcome>, root: Json, p: ResultCheck -> bool)
    requires AcceptsResults(root, p) && StagesShown(s, o, root) && EmtShown(o, root)
    ensures All(ExpectedEmtStatus(s, o), p) <==> o.Some?
  {
    EmtValues(s, o, root);
    var checks := ExpectedEmtStatus(s, o);
    assert p(checks[0]) && p(checks[1]) && p(checks[2]) && p(checks[4]);
    assert p(checks[3]) <==> o.Some?;
  }

  lemma ScreenResults(o: EmtOutcome, root: Json, p: ResultCheck -> bool)
    requires AcceptsResults(root, p) && EmtShown(Some(o), root) && (o.applied ==> o.scr.Some?)
    ensures All(ExpectedScreen(o.applied), p)
  {
    Resolve3(root, EmtResultKey, ConnectionApplicationKey, AppliedKey);
    Resolve3(root, EmtResultKey, MetricsKey, ScrKey);
    Resolve2(root, LinkageKey, EmtLinkageKey);
  }

  lemma TemplateShows(normalize: Normalizer, hypot: Hypot, s: JointSpec)
    ensures var root, o := Template(normalize, hypot, s), TemplateOutcome(hypot, s);
      && StagesShown(s, o, root) && EmtShown(o, root) && Child(root, M2ResultKey) == Some(M2Json(normalize, s))
      && Child(root, RecommendationKey).Some? && Child(root, CompleteKey).Some?
  {
  }

  lemma ResultsExact(normalize: Normalizer, hypot: Hypot, s: JointSpec, p: ResultCheck -> bool)
    requires AcceptsResults(Template(normalize, hypot, s), p)
    ensures All(ExpectedResults(s, TemplateOutcome(hypot, s)), p) <==>
      ((s.m2Ok ==> DynamicAvailable(normalize, s)) && (s.emt.Some? ==> EmtEnabled(s)))
  {
    var root, o := Template(normalize, hypot, s), TemplateOutcome(hypot, s);
    TemplateShows(normalize, hypot, s);
    StageResults(s, o, root, p);
    M2Results(normalize, s, root, p);
    EmtStatusResults(s, o, root, p);
    if o.Some? {
      ScreenResults(o.value, root, p);
    }
    var m2 := if s.m2Ok then ExpectedM2() else [];
    var emt := if s.emt.Some? then ExpectedEmtStatus(s, o) + ExpectedScreen(EmtApplied(o)) else [];
    AllAppend(ExpectedStages(), m2, p);
    AllAppend(ExpectedStages() + m2, emt, p);
    AllAppend(ExpectedEmtStatus(s, o), ExpectedScreen(EmtApplied(o)), p);
  }

  // The comparisons

  lemma {:induction false} ResolveUnder(root: Json, key: Part, inner: Json, path: Path)
    requires Child(root, key) == Some(inner)
    ensures Resolve(root, [key] + path) == Resolve(inner, path)
  {
    if path == [] {
      assert [key] + path == [key];
      Resolve1(root, key);
    } else {
      var k := |path| - 1;
      ResolveUnder(root, key, inner, path[..k]);
      assert ([key] + path)[..|[key] + path| - 1] == [key] + path[..k];
    }
  }

  /** Comparisons that pass have found their value in both results: the recommendation, completeness and the statuses of the
      first two stages, and with an EMT part that of the EMT stage. */
  lemma PassingComparisons(normalize: Normalizer, s: JointSpec, o: Option<EmtOutcome>, tool: Json, oracle: Json)
    requires true == All(Comparisons(s, o), ComparisonVerdict(normalize, Context(tool, oracle)))
    ensures true == FoundInBoth(tool, oracle, [RecommendationKey]) && true == FoundInBoth(tool, oracle, [CompleteKey])
    ensures true == FoundInBoth(tool, oracle, [SummaryKey, M1RecommendationKey]) && true == FoundInBoth(tool, oracle, [SummaryKey, M2StatusKey])
    ensures s.emt.Some? ==> true == FoundInBoth(tool, oracle, [SummaryKey, EmtStatusKey])
  {
    var p, emt := ComparisonVerdict(normalize, Context(tool, oracle)), if s.emt.Some? then EmtComparisons(EmtApplied(o)) else [];
    AllAppend(BaseComparisons(), emt, p);
    var checks := BaseComparisons();
    assert p(checks[0]) && p(checks[1]) && p(checks[2]) && p(checks[3]);
    PassingBoth(normalize, tool, oracle, [RecommendationKey]);
    PassingBoth(normalize, tool, oracle, [CompleteKey]);
    PassingBoth(normalize, tool, oracle, [SummaryKey, M1RecommendationKey]);
    PassingBoth(normalize, tool, oracle, [SummaryKey, M2StatusKey]);
    if s.emt.Some? {
      assert p(EmtComparisons(EmtApplied(o))[0]);
      PassingBoth(normalize, tool, oracle, [SummaryKey, EmtStatusKey]);
    }
  }

  predicate FoundInBoth(tool: Json, oracle: Json, path: Path) { Resolve(tool, path).Some? && Resolve(oracle, path).Some? }

  lemma PassingBoth(normalize: Normalizer, tool: Json, oracle: Json, path: Path)
    requires true == ComparisonPasses(normalize, Context(tool, oracle), Both(path))
    ensures true == FoundInBoth(tool, oracle, path)
  {
    ResolveUnder(Context(tool, oracle), ToolKey, tool, path);
    ResolveUnder(Context(tool, oracle), OracleKey, oracle, path);
  }

  ghost predicate AcceptsBoth(root: Json, p: Comparison -> bool) {
    forall path: Path :: Resolve(root, path).Some? ==> p(Both(path))
  }

  lemma VerdictAcceptsBoth(normalize: Normalizer, root: Json)
    ensures AcceptsBoth(root, ComparisonVerdict(normalize, Context(root, root)))
  {
    forall path: Path | Resolve(root, path).Some? ensures ComparisonVerdict(normalize, Context(root, root))(Both(path)) {
      ResolveUnder(Context(root, root), ToolKey, root, path);
      ResolveUnder(Context(root, root), OracleKey, root, path);
    }
  }

  lemma BaseComparisonsHold(normalize: Normalizer, s: JointSpec, o: Option<EmtOutcome>, root: Json, p: Comparison -> bool)
    requires AcceptsBoth(root, p) && StagesShown(s, o, root) && Child(root, M2ResultKey) == Some(M2Json(normalize, s))
    requires Child(root, RecommendationKey).Some? && Child(root, CompleteKey).Some?
    ensures All(BaseComparisons(), p)
  {
    Resolve1(root, RecommendationKey);
    Resolve1(root, CompleteKey);
    StageValues(s, o, root);
    Resolve2(root, M2ResultKey, DynamicModelingKey);
    Resolve3(root, M2ResultKey, ConnectionApplicationKey, AppliedKey);
    var checks := BaseComparisons();
    assert p(checks[0]) && p(checks[1]) && p(checks[2]) && p(checks[3]) && p(checks[4]) && p(checks[5]);
  }

  lemma EmtComparisonsHold(s: JointSpec, o: EmtOutcome, root: Json, p: Comparison -> bool)
    requires AcceptsBoth(root, p) && StagesShown(s, Some(o), root) && EmtShown(Some(o), root)
    ensures All(EmtComparisons(o.applied), p)
  {
    EmtValues(s, Some(o), root);
    ScrValues(s, o, root);
  }

  lemma ScrValues(s: JointSpec, o: EmtOutcome, root: Json)
    requires StagesShown(s, Some(o), root) && EmtShown(Some(o), root)
    ensures Resolve(root, [SummaryKey, EmtScrKey]) == Resolve(root, [EmtResultKey, MetricsKey, ScrKey]) == Some(ScrJson(o.scr))
  {
    Resolve2(root, SummaryKey, EmtScrKey);
    Resolve3(root, EmtResultKey, MetricsKey, ScrKey);
  }

  lemma ComparisonsHold(normalize: Normalizer, hypot: Hypot, s: JointSpec, p: Comparison -> bool)
    requires AcceptsBoth(Template(normalize, hypot, s), p) && (s.emt.Some? ==> EmtEnabled(s))
    ensures All(Comparisons(s, TemplateOutcome(hypot, s)), p)
  {
    var root, o := Template(normalize, hypot, s), TemplateOutcome(hypot, s);
    TemplateShows(normalize, hypot, s);
    BaseComparisonsHold(normalize, s, o, root, p);
    if o.Some? {
      EmtComparisonsHold(s, o.value, root, p);
      AllAppend(BaseComparisons(), EmtComparisons(EmtApplied(o)), p);
    } else {
      assert BaseComparisons() + [] == BaseComparisons();
    }
  }

  lemma OwnResults(normalize: Normalizer, hypot: Hypot, s: JointSpec)
    ensures All(ExpectedResults(s, TemplateOutcome(hypot, s)), ResultVerdict(normalize, Template(normalize, hypot, s))) <==>
      ((s.m2Ok ==> DynamicAvailable(normalize, s)) && (s.emt.Some? ==> EmtEnabled(s)))
  {
    VerdictAcceptsResults(normalize, Template(normalize, hypot, s));
    ResultsExact(normalize, hypot, s, ResultVerdict(normalize, Template(normalize, hypot, s)));
  }

  lemma OwnComparisons(normalize: Normalizer, hypot: Hypot, s: JointSpec)
    requires s.emt.Some? ==> EmtEnabled(s)
    ensures var root := Template(normalize, hypot, s);
      All(Comparisons(s, TemplateOutcome(hypot, s)), ComparisonVerdict(normalize, Context(root, root)))
  {
    var root := Template(normalize, hypot, s);
    VerdictAcceptsBoth(normalize, root);
    ComparisonsHold(normalize, hypot, s, ComparisonVerdict(normalize, Context(root, root)));
  }

  /** A scenario's template passes all the scenario's own checks exactly when a successful M2 stage has a supported
      dynamic case behind it and an EMT block, if there is one, says it is enabled. */
  lemma OwnChecksExact(normalize: Normalizer, hypot: Hypot, id: string, s: JointSpec)
    ensures PassesOwnChecks(normalize, JointScenario(normalize, hypot, id, s)) <==>
      ((s.m2Ok ==> DynamicAvailable(normalize, s)) && (s.emt.Some? ==> EmtEnabled(s)))
  {
    ArgumentsExact(normalize, s);
    OwnResults(normalize, hypot, s);
    if s.emt.Some? ==> EmtEnabled(s) {
      OwnComparisons(normalize, hypot, s);
    }
  }
}
