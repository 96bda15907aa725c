/** The scenario generator: labels, unique ids and the agreement with the real decision. */
module JointGenerator {
  import opened Prelude
  import opened Rounding
  import opened Text
  import opened GridModel
  import opened Stages
  import opened Emt
  import opened JsonPaths
  import opened JointBenchmark
  import opened JointChecks
  import Integrated
  import C = Contingencies

  // ---- names of dynamic cases ----

  function CaseKeyOf(lower: string -> string, value: string): string {
    Replace(Replace(Replace(lower(Strip(value)), '-', ""), '_', ""), ' ', "")
  }

  const KUNDUR := "kundur_full"
  const IEEE14 := "ieee14_dynamic"
  const IEEE118 := "ieee118_public_dynamic"

  /** `_normalize_dynamic_case_name` on strings */
  function NormalizeCaseName(lower: string -> string): Normalizer {
    (value: string) =>
      var key := CaseKeyOf(lower, value);
      if key in {"kundur", "kundurfull"} then KUNDUR
      else if key in {"ieee14", "case14", "ieee14dynamic", "14"} then IEEE14
      else if key in {"ieee118", "case118", "118", "ieee118dynamic", "ieee118public", "ieee118publicdynamic"} then IEEE118
      else key
  }

  lemma {:induction false} ReplaceRemoves(s: string, c: char)
    ensures c !in Replace(s, c, "")
  {
    if s != "" {
      ReplaceRemoves(s[..|s| - 1], c);
    }
  }

  lemma {:induction false} ReplaceAddsNothing(s: string, c: char, d: char)
    requires d !in s
    ensures d !in Replace(s, c, "")
  {
    if s != "" {
      ReplaceAddsNothing(s[..|s| - 1], c, d);
    }
  }

  /** No case name is ever normalised to the unsupported one, so every template has dynamic data. */
  lemma NeverUnsupported(lower: string -> string, value: string)
    ensures NormalizeCaseName(lower)(value) != UNSUPPORTED_DYNAMIC_CASE
  {
    var bare := Replace(lower(Strip(value)), '-', "");
    ReplaceRemoves(bare, '_');
    ReplaceAddsNothing(Replace(bare, '_', ""), ' ', '_');
    assert UNSUPPORTED_DYNAMIC_CASE[11] == '_';
    assert KUNDUR[0] == 'k' && IEEE14[0] == 'i' && IEEE118[0] == 'i' && UNSUPPORTED_DYNAMIC_CASE[0] == 'u';
  }

  // ---- scenario ids ----

  function Zeros(n: nat): string { seq(n, _ => '0') }

  /** `{n:04d}` */
  function Pad4(n: nat): string { Zeros(Max(0, 4 - |Digits(n)|)) + Digits(n) }

  function ValueOf(s: string): int {
    if s == "" then 0 else 10 * ValueOf(s[..|s| - 1]) + (s[|s| - 1] as int - '0' as int)
  }

  lemma {:induction false} ValueOfDigits(n: nat, zeros: nat)
    ensures ValueOf(Zeros(zeros) + Digits(n)) == n
    decreases n
  {
    var s := Zeros(zeros) + Digits(n);
    if n < 10 {
      assert s[..|s| - 1] == Zeros(zeros);
      ValueOfZeros(zeros);
    } else {
      assert s[..|s| - 1] == Zeros(zeros) + Digits(n / 10);
      ValueOfDigits(n / 10, zeros);
    }
  }

  lemma {:induction false} ValueOfZeros(zeros: nat)
    ensures ValueOf(Zeros(zeros)) == 0
  {
    if zeros > 0 {
      assert Zeros(zeros)[..zeros - 1] == Zeros(zeros - 1);
      ValueOfZeros(zeros - 1);
    }
  }

  lemma Pad4Injective(a: nat, b: nat)
    requires Pad4(a) == Pad4(b)
    ensures a == b
  {
    ValueOfDigits(a, Max(0, 4 - |Digits(a)|));
    ValueOfDigits(b, Max(0, 4 - |Digits(b)|));
  }

  function IdPrefix(profile: string, seed: int): string { "generated_ieee14_" + profile + "_" + Str(seed) + "_" }

  function IdTail(connectionType: string, bus: int, faultBus: int): string {
    connectionType + "_bus" + Str(bus) + "_fault" + Str(faultBus)
  }

  function BaseId(profile: string, seed: int, index: nat, tail: string): string {
    IdPrefix(profile, seed) + (Pad4(index) + ['_'] + tail)
  }

  lemma DropPrefix(prefix: string, a: string, b: string)
    requires prefix + a == prefix + b
    ensures a == b
  {
    assert (prefix + a)[|prefix|..] == a && (prefix + b)[|prefix|..] == b;
  }

  /** Within one run the index alone keeps the ids apart, whatever was drawn. */
  lemma BaseIdsDiffer(profile: string, seed: int, i: nat, j: nat, tail: string, tail': string)
    requires i != j
    ensures BaseId(profile, seed, i, tail) != BaseId(profile, seed, j, tail')
  {
    if BaseId(profile, seed, i, tail) == BaseId(profile, seed, j, tail') {
      DropPrefix(IdPrefix(profile, seed), Pad4(i) + ['_'] + tail, Pad4(j) + ['_'] + tail');
      SplitFirst(Pad4(i), tail, Pad4(j), tail', '_');
      Pad4Injective(i, j);
    }
  }

  /** The id tried with a suffix; the first try has none. */
  function Candidate(base: string, suffix: nat): string {
    if suffix <= 1 then base else base + "_" + Str(suffix)
  }

  lemma CandidatesDiffer(base: string, j: nat, k: nat)
    requires 1 <= j < k
    ensures Candidate(base, j) != Candidate(base, k)
  {
    if Candidate(base, j) == Candidate(base, k) {
      assert |Candidate(base, k)| > |base|;
      Assoc(base, "_", Str(j));
      Assoc(base, "_", Str(k));
      DropPrefix(base, "_" + Str(j), "_" + Str(k));
      DropPrefix("_", Str(j), Str(k));
      StrInjective(j, k);
    }
  }

  /** `_unique_generated_id`: the first candidate not in use. */
  method UniqueGeneratedId(base: string, used: set<string>) returns (id: string, used': set<string>)
    ensures id !in used && used' == used + {id}
    ensures exists k: nat :: k >= 1 && id == Candidate(base, k) && forall j: nat | 1 <= j < k :: Candidate(base, j) in used
    ensures base !in used ==> id == base
  {
    id := base;
    var suffix := 1;
    ghost var tried: set<string> := {};
    while id in used
      invariant suffix >= 1 && id == Candidate(base, suffix)
      invariant tried <= used && |tried| == suffix - 1
      invariant forall j: nat | 1 <= j < suffix :: Candidate(base, j) in tried
      invariant forall x | x in tried :: exists j: nat :: 1 <= j < suffix && x == Candidate(base, j)
      invariant suffix > 1 ==> base in used
      decreases |used| - |tried|
    {
      if id in tried {
        var j: nat :| 1 <= j < suffix && id == Candidate(base, j);
        CandidatesDiffer(base, j, suffix);
      }
      tried := tried + {id};
      SubsetSize(tried, used);
      suffix := suffix + 1;
      id := base + "_" + Str(suffix);
    }
    used' := used + {id};
  }

  // ---- one scenario ----

  const HARD_EMT := "hard_emt"
  const PROFILES := {"m1m2", "emt", "mixed", "hard_emt"}

  /** Everything one scenario draws at random, unrestricted. */
  datatype Draw = Draw(
    connectionType: string,
    bus: int,
    pMw: real,
    qMvar: Option<real>,
    faultBus: int,
    start: real,
    duration: real,
    transientRequired: bool,
    includeEmt: bool,
    emtRequired: bool,
    threshold: real)

  function Round3(x: real): real { RoundHalfEven(x * 1000.0) as real / 1000.0 }

  function IncludesEmt(profile: string, d: Draw): bool {
    if profile == "m1m2" then false
    else if profile == HARD_EMT then true
    else if profile == "emt" then true
    else d.includeEmt
  }

  function ProposalOf(d: Draw): Proposal {
    Proposal(d.bus, d.pMw, d.connectionType, d.connectionType in IBR_TYPES, d.qMvar)
  }

  function ThresholdOf(profile: string, d: Draw): real { if profile == HARD_EMT then d.threshold else 3.0 }

  /** `_generated_joint_scenario` up to its id */
  function GeneratedSpec(hypot: Hypot, profile: string, d: Draw): JointSpec {
    var p := ProposalOf(d);
    var included := IncludesEmt(profile, d);
    var emt := if included then Some(EmtPayload(Some(true), Some(p.isIbr && d.emtRequired), Some(ThresholdOf(profile, d)))) else None;
    var status := if included then Some(GeneratedEmtStatus(hypot, p, ThresholdOf(profile, d))) else None;
    JointSpec("ieee14", IEEE14, p, BusFault(d.faultBus, d.start, Round3(d.start + d.duration)), d.transientRequired,
      Pass, true, emt, status, GeneratedRecommendation(d.transientRequired, Pass, status), true, false)
  }

  /** What a scenario takes from its draw. It has an EMT part in the two EMT profiles, and in the mixed one when drawn; the
      part is enabled, required only of power-electronic projects, at a threshold of 3 outside the hard profile. The fault
      is cleared at the drawn time to the nearest thousandth. */
  lemma DrawnSpec(hypot: Hypot, profile: string, d: Draw)
    requires profile in PROFILES
    ensures var s := GeneratedSpec(hypot, profile, d);
      && (s.emt.Some? <==> profile in {"emt", "hard_emt"} || (profile == "mixed" && d.includeEmt))
      && (s.emt.Some? ==>
           && s.emt.value.enabled == Some(true)
           && s.emt.value.required == Some(d.connectionType in {"solar", "wind", "bess", "hybrid"} && d.emtRequired)
           && s.emt.value.scrThreshold == Some(if profile == "hard_emt" then d.threshold else 3.0))
      && (s.emtStatus.Some? <==> s.emt.Some?)
  {
  }

  lemma DrawnRequest(hypot: Hypot, profile: string, d: Draw)
    ensures var s := GeneratedSpec(hypot, profile, d);
      && s.proposal.bus == d.bus && s.proposal.pMw == d.pMw && s.proposal.qMvar == d.qMvar
      && s.proposal.connectionType == d.connectionType
      && (s.proposal.isIbr <==> d.connectionType in {"solar", "wind", "bess", "hybrid"})
      && s.disturbance.BusFault? && s.disturbance.bus == d.faultBus && s.disturbance.start == d.start
      && -0.0005 <= s.disturbance.clearing - (d.start + d.duration) <= 0.0005
      && s.required == d.transientRequired && s.m2Status == Pass && s.m2Ok && s.complete && !s.strict
  {
    var x := (d.start + d.duration) * 1000.0;
    assert -0.5 <= RoundHalfEven(x) as real - x <= 0.5;
  }

  function DrawnId(profile: string, seed: int, index: nat, d: Draw): string {
    BaseId(profile, seed, index, IdTail(d.connectionType, d.bus, d.faultBus))
  }

  /** The scenario at one index. */
  function GeneratedScenario(lower: string -> string, hypot: Hypot, profile: string, seed: int, index: nat, d: Draw): Scenario {
    JointScenario(NormalizeCaseName(lower), hypot, DrawnId(profile, seed, index, d), GeneratedSpec(hypot, profile, d))
  }

  /** `_generated_joint_scenario`: the drawn scenario under an id not yet in use. */
  method GenerateOne(lower: string -> string, hypot: Hypot, profile: string, seed: int, index: nat, d: Draw, used: set<string>)
    returns (scenario: Scenario, used': set<string>)
    ensures scenario.id !in used && used' == used + {scenario.id}
    ensures scenario == GeneratedScenario(lower, hypot, profile, seed, index, d).(id := scenario.id)
    ensures DrawnId(profile, seed, index, d) !in used ==> scenario == GeneratedScenario(lower, hypot, profile, seed, index, d)
  {
    var id;
    id, used' := UniqueGeneratedId(DrawnId(profile, seed, index, d), used);
    scenario := JointScenario(NormalizeCaseName(lower), hypot, id, GeneratedSpec(hypot, profile, d));
  }

  ghost predicate IdsOfFirst(profile: string, seed: int, draws: nat -> Draw, n: nat, used: set<string>) {
    forall x | x in used :: exists i: nat :: i < n && x == DrawnId(profile, seed, i, draws(i))
  }

  lemma FreshBase(profile: string, seed: int, draws: nat -> Draw, n: nat, used: set<string>)
    requires IdsOfFirst(profile, seed, draws, n, used)
    ensures DrawnId(profile, seed, n, draws(n)) !in used
    ensures IdsOfFirst(profile, seed, draws, n + 1, used + {DrawnId(profile, seed, n, draws(n))})
  {
    var base := DrawnId(profile, seed, n, draws(n));
    if base in used {
      var i: nat :| i < n && base == DrawnId(profile, seed, i, draws(i));
      BaseIdsDiffer(profile, seed, i, n, IdTail(draws(i).connectionType, draws(i).bus, draws(i).faultBus),
        IdTail(draws(n).connectionType, draws(n).bus, draws(n).faultBus));
    }
  }

  function Generating(lower: string -> string, hypot: Hypot, profile: string, seed: int, draws: nat -> Draw): nat -> Scenario {
    (index: nat) => GeneratedScenario(lower, hypot, profile, seed, index, draws(index))
  }

  ghost predicate Listed<T>(s: seq<T>, make: nat -> T) { forall i: nat | i < |s| :: s[i] == make(i) }

  lemma ListedSnoc<T>(s: seq<T>, make: nat -> T)
    requires Listed(s, make)
    ensures Listed(s + [make(|s|)], make)
  {
  }

  /** `generate_joint_benchmark_scenarios`; `profile` is already trimmed and in lower case, `draws` is the random
      generator. No suffix is ever needed: every id is the plain one. */
  method GenerateScenarios(lower: string -> string, hypot: Hypot, count: int, seed: int, profile: string, draws: nat -> Draw)
    returns (r: Result<seq<Scenario>, string>)
    ensures r.Ok? <==> count >= 1 && profile in PROFILES
    ensures r.Ok? ==> |r.value| == count && Listed(r.value, Generating(lower, hypot, profile, seed, draws))
  {
    if count < 1 {
      return Err("count must be a positive integer");
    }
    if profile !in PROFILES {
      return Err("profile must be one of: m1m2, emt, mixed, hard_emt");
    }
    var scenarios, used := [], {};
    ghost var make := Generating(lower, hypot, profile, seed, draws);
    for index := 0 to count
      invariant |scenarios| == index && Listed(scenarios, make)
      invariant IdsOfFirst(profile, seed, draws, index, used)
    {
      FreshBase(profile, seed, draws, index, used);
      var scenario;
      scenario, used := GenerateOne(lower, hypot, profile, seed, index, draws(index), used);
      ListedSnoc(scenarios, make);
      scenarios := scenarios + [scenario];
    }
    r := Ok(scenarios);
  }

  /** The scenarios of a run have pairwise different ids. */
  lemma GeneratedIdsDiffer(lower: string -> string, hypot: Hypot, profile: string, seed: int, i: nat, j: nat, d: Draw, d': Draw)
    requires i != j
    ensures GeneratedScenario(lower, hypot, profile, seed, i, d).id != GeneratedScenario(lower, hypot, profile, seed, j, d').id
  {
    BaseIdsDiffer(profile, seed, i, j, IdTail(d.connectionType, d.bus, d.faultBus), IdTail(d'.connectionType, d'.bus, d'.faultBus));
  }

  /** Every generated scenario passes all its own argument, result and comparison checks. */
  lemma GeneratedPassOwnChecks(lower: string -> string, hypot: Hypot, profile: string, seed: int, index: nat, d: Draw)
    ensures PassesOwnChecks(NormalizeCaseName(lower), GeneratedScenario(lower, hypot, profile, seed, index, d))
  {
    var s := GeneratedSpec(hypot, profile, d);
    NeverUnsupported(lower, s.transientCasePath);
    NeverUnsupported(lower, s.casePath);
    OwnChecksExact(NormalizeCaseName(lower), hypot, DrawnId(profile, seed, index, d), s);
  }

  // ---- labels against the real decision ----

  function TransientOf(s: JointSpec): Integrated.TransientRequest { Integrated.TransientRequest(true, s.required, true) }

  function EmtRequestOf(s: JointSpec): Integrated.EmtRequest {
    if s.emt.Some?
    then Integrated.EmtRequest(s.emt.value.enabled == Some(true), s.emt.value.required == Some(true),
      if s.emt.value.scrThreshold.Some? then s.emt.value.scrThreshold.value else 3.0, 0.25)
    else Integrated.EmtRequest(false, false, 3.0, 0.25)
  }

  /** For every draw the frozen label is the real decision on a passing M1, a passing M2 and the template's EMT status. */
  lemma LabelIsTheDecision(hypot: Hypot, profile: string, d: Draw)
    ensures var s := GeneratedSpec(hypot, profile, d);
      s.recommendation == RealRecommendation(Pass, s.emtStatus, TransientOf(s), EmtRequestOf(s))
  {
    var s := GeneratedSpec(hypot, profile, d);
    LabelAgreesExactly(Pass, s.emtStatus, TransientOf(s), EmtRequestOf(s));
  }

  /** The status the label was made from is the one the template computes for itself. */
  lemma TemplateComputesTheLabelledStatus(hypot: Hypot, profile: string, d: Draw)
    ensures var s := GeneratedSpec(hypot, profile, d);
      && TemplateOutcome(hypot, s).Some? == s.emtStatus.Some?
      && (s.emt.Some? ==> EmtOutcomeOf(hypot, s.proposal, s.emt.value, None).status == s.emtStatus.value)
      && (s.emt.Some? ==> EmtStageStatus(TemplateOutcome(hypot, s)) == s.emtStatus.value)
  {
  }

  /** The grid answers as the template assumes: the connected case solves and the strengths are the tabled ones. */
  ghost predicate LikeTemplate(grid: Grid, hypot: Hypot, p: Proposal, c: Connection) {
    grid.hypot == hypot && AttachError(grid, c).None? && grid.flow(Some(c), None).Converged? && grid.strength(c) == Some(TemplateStrength(p.bus))
  }

  /** On such a grid the real screen returns the generated status. */
  lemma ScreenAgrees(grid: Grid, hypot: Hypot, p: Proposal, vmPu: real, threshold: real)
    requires LikeTemplate(grid, hypot, p, ConnectionOf(p, vmPu)) && threshold > 0.0
    ensures var r := RunEmt(grid, ConnectionOf(p, vmPu), threshold, 0.25);
      && r.Returned? && r.ok && r.status == GeneratedEmtStatus(hypot, p, threshold)
      && r.passed == (r.status.Pass? || r.status.Skipped?)
      && r.applied == (IsIbr(p) && Mva(hypot, p) > 0.0)
  {
  }

  /** More active or reactive power at the same bus does not improve the generated status, except on a project of size
      zero, whose status is fail: exactly then any power that does not fail is better. */
  lemma GeneratedStatusAntitone(hypot: Hypot, p: Proposal, q: Proposal, threshold: real)
    requires IsHypot(hypot) && IsIbr(p) && IsIbr(q) && p.bus == q.bus
    requires Abs(p.pMw) <= Abs(q.pMw)
    requires Abs(ConnectionOf(p, 1.0).qMvar) <= Abs(ConnectionOf(q, 1.0).qMvar)
    ensures OutcomeRank(GeneratedEmtStatus(hypot, q, threshold)) <= OutcomeRank(GeneratedEmtStatus(hypot, p, threshold))
      <==> (Mva(hypot, p) > 0.0 || GeneratedEmtStatus(hypot, q, threshold).Fail?)
  {
    ScreenAntitone(hypot, TemplateStrength(p.bus), p.pMw, ConnectionOf(p, 1.0).qMvar, q.pMw, ConnectionOf(q, 1.0).qMvar, threshold, 0.25);
  }

  /** A solar project of 0 MW at bus 5 fails, one of 1 MW passes. */
  lemma ZeroSizeFails(hypot: Hypot)
    requires IsHypot(hypot)
    ensures GeneratedEmtStatus(hypot, Proposal(5, 0.0, "solar", true, None), 3.0) == Fail
    ensures GeneratedEmtStatus(hypot, Proposal(5, 1.0, "solar", true, None), 3.0) == Pass
  {
    var none, one := hypot(0.0, 0.0), hypot(1.0, 0.0);
    assert none * none == 0.0 && one * one == 1.0;
    RootMonotone(none, 0.0);
    RootMonotone(one, 1.0);
    RootMonotone(1.0, one);
    assert one == 1.0 && 52.0 / 1.0 == 52.0;
  }

  // An integrated study of what the scenario asks for; the grid, the limits and the contingency options are free.
  predicate StudyOf(s: JointSpec, vmPu: real, study: Integrated.Study) {
    study.connection == ConnectionOf(s.proposal, vmPu) && study.transient == TransientOf(s) && study.emt == EmtRequestOf(s)
  }

  // Only the statuses decide the recommendation and whether it is complete.
  lemma DecidedByStatuses(m1: Integrated.StageView, m2: Integrated.StageView, emt: Integrated.StageView,
                          m1': Integrated.StageView, m2': Integrated.StageView, emt': Integrated.StageView,
                          t: Integrated.TransientRequest, e: Integrated.EmtRequest)
    requires m1.status == m1'.status && m2.status == m2'.status && emt.status == emt'.status
    ensures var v, v' := Integrated.IntegratedRecommendation(m1, m2, emt, t, e), Integrated.IntegratedRecommendation(m1', m2', emt', t, e);
      v.recommendation == v'.recommendation && v.complete == v'.complete
  {
  }

  lemma AssessByStatuses(study: Integrated.Study)
    requires C.Injective(study.repr) && Integrated.NetworkAccepts(study)
    ensures var r := Integrated.Assess(study, Integrated.NotStrict);
      r.Ok? && r.value.recommendation == Integrated.IntegratedRecommendation(StageWith(Pass, true),
        StageWith(Integrated.M2StageOf(study).status, study.transient.requiredForApproval),
        StageWith(Integrated.EmtStageOf(study).status, study.emt.requiredForApproval), study.transient, study.emt).recommendation
  {
    var m1 := Integrated.AcceptedVerdict(study);
    DecidedByStatuses(m1, Integrated.M2StageOf(study), Integrated.EmtStageOf(study), StageWith(Pass, true),
      StageWith(Integrated.M2StageOf(study).status, study.transient.requiredForApproval),
      StageWith(Integrated.EmtStageOf(study).status, study.emt.requiredForApproval), study.transient, study.emt);
  }

  lemma StudyStatuses(hypot: Hypot, profile: string, d: Draw, vmPu: real, study: Integrated.Study)
    requires var s := GeneratedSpec(hypot, profile, d);
      && StudyOf(s, vmPu, study) && LikeTemplate(study.emtGrid, hypot, s.proposal, study.connection)
      && ThresholdOf(profile, d) > 0.0 && study.dynamic.ok && study.dynamic.stability.Pass?
    ensures Integrated.M2StageOf(study).status.Pass?
    ensures var s := GeneratedSpec(hypot, profile, d);
      Integrated.EmtStageOf(study).status == if s.emtStatus.Some? then s.emtStatus.value else Skipped
  {
    ScreenAgrees(study.emtGrid, hypot, ProposalOf(d), vmPu, ThresholdOf(profile, d));
  }

  /** End to end: where the network accepts the project, the transient study passes and the grid answers as the
      template assumes, the integrated assessment returns the frozen label. */
  lemma LabelIsTheVerdict(hypot: Hypot, profile: string, d: Draw, vmPu: real, study: Integrated.Study)
    requires var s := GeneratedSpec(hypot, profile, d);
      && StudyOf(s, vmPu, study) && LikeTemplate(study.emtGrid, hypot, s.proposal, study.connection)
      && ThresholdOf(profile, d) > 0.0 && study.dynamic.ok && study.dynamic.stability.Pass?
    requires C.Injective(study.repr) && Integrated.NetworkAccepts(study)
    ensures var r := Integrated.Assess(study, Integrated.NotStrict);
      r.Ok? && r.value.recommendation == GeneratedSpec(hypot, profile, d).recommendation
  {
    StudyStatuses(hypot, profile, d, vmPu, study);
    AssessByStatuses(study);
    LabelIsTheDecision(hypot, profile, d);
  }
}
