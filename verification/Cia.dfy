/** The baseline-aware connection impact assessment. */
module Cia {
  import opened Prelude
  import opened GridModel
  import opened Stages
  import opened Emt
  import C = Contingencies

  // ---- before/after comparison of findings ----

  datatype ChangeType = NewViolation | SeverityWorsened | LimitCrossedWithinBorderline | MaterialWorsening

  datatype CausedViolation = CausedViolation(
    change: ChangeType,
    post: Violation,
    baseline: Option<Violation>,
    marginDelta: Option<real>)

  type ByKey = map<ViolationKey, Violation>

  function Get(base: ByKey, v: Violation): Option<Violation> {
    if KeyOf(v) in base then Some(base[KeyOf(v)]) else None
  }

  function ProjectChangeType(baseline: Option<Violation>, post: Violation, threshold: real): Option<ChangeType> {
    if baseline.None? then Some(NewViolation)
    else if Rank(post.severity) > Rank(baseline.value.severity) then Some(SeverityWorsened)
    else if baseline.value.marginPercent <= 0.0 < post.marginPercent then Some(LimitCrossedWithinBorderline)
    else if post.marginPercent - baseline.value.marginPercent > threshold then Some(MaterialWorsening)
    else None
  }

  // The kind of change, were it reported; unlike the decision to report it does not depend on the threshold.
  function KindOf(baseline: Option<Violation>, post: Violation): ChangeType {
    match ProjectChangeType(baseline, post, 0.0) case Some(kind) => kind case None => MaterialWorsening
  }

  lemma ChangeTypeIsKind(baseline: Option<Violation>, post: Violation, threshold: real)
    ensures match ProjectChangeType(baseline, post, threshold) case Some(kind) => kind == KindOf(baseline, post) case None => true
  {
  }

  function Describe(base: ByKey, post: Violation): CausedViolation {
    var baseline := Get(base, post);
    CausedViolation(KindOf(baseline, post), post, baseline,
      if baseline.None? then None else Some(post.marginPercent - baseline.value.marginPercent))
  }

  function Describing(base: ByKey): Violation -> CausedViolation { v => Describe(base, v) }

  function Causes(base: ByKey, threshold: real): Violation -> bool {
    v => ProjectChangeType(Get(base, v), v, threshold).Some?
  }

  function Tolerates(base: ByKey, threshold: real): Violation -> bool {
    v => ProjectChangeType(Get(base, v), v, threshold).None?
  }

  function CausedBefore(x: CausedViolation, y: CausedViolation): bool {
    Rank(y.post.severity) < Rank(x.post.severity) ||
    (Rank(y.post.severity) == Rank(x.post.severity) && y.post.marginPercent <= x.post.marginPercent)
  }

  predicate IsHardCaused(c: CausedViolation) { c.post.severity.Hard? }

  predicate IsBorderlineCaused(c: CausedViolation) { c.post.severity.Borderline? }

  datatype Comparison = Comparison(caused: seq<CausedViolation>, hardCount: nat, borderlineCount: nat)

  function Compare(baseline: seq<Violation>, posts: seq<Violation>, threshold: real): Comparison {
    var base := LastBy(baseline, KeyOf);
    var caused := Sort(Map(Filter(posts, Causes(base, threshold)), Describing(base)), CausedBefore);
    Comparison(caused, |Filter(caused, IsHardCaused)|, |Filter(caused, IsBorderlineCaused)|)
  }

  /** The body of the comparison loop. */
  method AppendIfCaused(base: ByKey, post: Violation, threshold: real, caused: seq<CausedViolation>) returns (r: seq<CausedViolation>)
    ensures r == caused + (if Causes(base, threshold)(post) then [Describing(base)(post)] else [])
  {
    var previous := Get(base, post);
    var change := ProjectChangeType(previous, post, threshold);
    ChangeTypeIsKind(previous, post, threshold);
    r := caused;
    if change.Some? {
      var delta := if previous.None? then None else Some(post.marginPercent - previous.value.marginPercent);
      r := caused + [CausedViolation(change.value, post, previous, delta)];
    }
  }

  method CompareViolationReports(baseline: seq<Violation>, posts: seq<Violation>, threshold: real) returns (r: Comparison)
    ensures r == Compare(baseline, posts, threshold)
  {
    var base := LastBy(baseline, KeyOf);
    ghost var causes, describe := Causes(base, threshold), Describing(base);
    var caused := [];
    for k := 0 to |posts|
      invariant caused == Map(Filter(posts[..k], causes), describe)
    {
      MapFilterSnoc(posts[..k], posts[k], causes, describe);
      assert posts[..k + 1] == posts[..k] + [posts[k]];
      caused := AppendIfCaused(base, posts[k], threshold, caused);
    }
    assert posts[..|posts|] == posts;
    caused := Sort(caused, CausedBefore);
    r := Comparison(caused, |Filter(caused, IsHardCaused)|, |Filter(caused, IsBorderlineCaused)|);
  }

  /** The finding was there before: the last baseline finding with its key is at least as severe, no limit
      was newly crossed, and the margin grew by no more than the threshold. */
  ghost predicate Preexisting(baseline: seq<Violation>, v: Violation, threshold: real) {
    exists i: nat :: IsLastWith(baseline, KeyOf, KeyOf(v), i) && NoWorse(baseline[i], v, threshold)
  }

  predicate NoWorse(before: Violation, v: Violation, threshold: real) {
    && Rank(v.severity) <= Rank(before.severity)
    && !(before.marginPercent <= 0.0 < v.marginPercent)
    && v.marginPercent - before.marginPercent <= threshold
  }

  lemma CausedIsNotPreexisting(baseline: seq<Violation>, v: Violation, threshold: real)
    ensures Causes(LastBy(baseline, KeyOf), threshold)(v) <==> !Preexisting(baseline, v, threshold)
  {
    LastByLookup(baseline, KeyOf, KeyOf(v));
    if KeyOf(v) in LastBy(baseline, KeyOf) {
      var i: nat :| IsLastWith(baseline, KeyOf, KeyOf(v), i) && LastBy(baseline, KeyOf)[KeyOf(v)] == baseline[i];
      assert forall j: nat | IsLastWith(baseline, KeyOf, KeyOf(v), j) :: j == i;
    }
  }

  /** The list blames exactly the findings that were not there before, and the counts cover it. */
  lemma CompareBlames(baseline: seq<Violation>, posts: seq<Violation>, threshold: real)
    ensures var r := Compare(baseline, posts, threshold);
      && r.hardCount + r.borderlineCount == |r.caused|
      && (r.hardCount > 0 <==> exists v | v in posts :: v.severity.Hard? && !Preexisting(baseline, v, threshold))
      && (r.caused == [] <==> forall v | v in posts :: Preexisting(baseline, v, threshold))
  {
    var base := LastBy(baseline, KeyOf);
    var kept := Filter(posts, Causes(base, threshold));
    var listed := Map(kept, Describing(base));
    var r := Compare(baseline, posts, threshold);
    forall v | v in posts ensures v in kept <==> !Preexisting(baseline, v, threshold) {
      CausedIsNotPreexisting(baseline, v, threshold);
    }
    SeveritiesCover(r.caused);
    SortFilterCount(listed, CausedBefore, IsHardCaused);
    FilterMapCount(kept, Describing(base), IsHardCaused, IsHard);
    var hard := Filter(kept, IsHard);
    assert |hard| == r.hardCount;
    assert |hard| > 0 ==> hard[0] in hard;
    assert |kept| > 0 ==> kept[0] in kept;
    assert |kept| == |r.caused|;
  }

  /** An entry is listed exactly for a finding that is new or worse than before, with the finding it is compared to. */
  lemma CompareLists(baseline: seq<Violation>, posts: seq<Violation>, threshold: real, v: Violation)
    ensures Describe(LastBy(baseline, KeyOf), v) in Compare(baseline, posts, threshold).caused <==>
      v in posts && !Preexisting(baseline, v, threshold)
  {
    var base := LastBy(baseline, KeyOf);
    var kept := Filter(posts, Causes(base, threshold));
    var listed := Map(kept, Describing(base));
    CausedIsNotPreexisting(baseline, v, threshold);
    if v in kept {
      var i :| 0 <= i < |kept| && kept[i] == v;
      assert listed[i] == Describe(base, v);
    }
    if Describe(base, v) in listed {
      var i :| 0 <= i < |listed| && listed[i] == Describe(base, v);
      assert kept[i] == v && kept[i] in kept;
    }
  }

  /** What an entry says of a finding: new without a baseline finding of its key; otherwise compared with the last such one,
      more severe, newly over its limit, or only further along, with the growth of the margin. */
  lemma DescribeMeaning(baseline: seq<Violation>, v: Violation)
    ensures var entry := Describe(LastBy(baseline, KeyOf), v);
      && entry.post == v
      && (entry.change.NewViolation? <==> forall b | b in baseline :: KeyOf(b) != KeyOf(v))
      && (entry.change.NewViolation? ==> entry.baseline.None? && entry.marginDelta.None?)
      && (!entry.change.NewViolation? ==> exists i: nat :: IsLastWith(baseline, KeyOf, KeyOf(v), i) && ComparedWith(entry, v, baseline[i]))
  {
    LastByLookup(baseline, KeyOf, KeyOf(v));
    if KeyOf(v) in LastBy(baseline, KeyOf) {
      var i: nat :| IsLastWith(baseline, KeyOf, KeyOf(v), i) && LastBy(baseline, KeyOf)[KeyOf(v)] == baseline[i];
      assert ComparedWith(Describe(LastBy(baseline, KeyOf), v), v, baseline[i]);
    }
  }

  predicate ComparedWith(entry: CausedViolation, v: Violation, last: Violation) {
    && entry.baseline == Some(last) && entry.marginDelta == Some(v.marginPercent - last.marginPercent)
    && (entry.change.SeverityWorsened? <==> v.severity.Hard? && last.severity.Borderline?)
    && (entry.change.LimitCrossedWithinBorderline? <==>
         (v.severity.Hard? ==> last.severity.Hard?) && last.marginPercent <= 0.0 < v.marginPercent)
  }

  /** Hard findings are listed before borderline ones, larger margins before smaller ones. */
  lemma CompareListsWorstFirst(baseline: seq<Violation>, posts: seq<Violation>, threshold: real, i: nat, j: nat)
    requires i < j < |Compare(baseline, posts, threshold).caused|
    ensures var x, y := Compare(baseline, posts, threshold).caused[i].post, Compare(baseline, posts, threshold).caused[j].post;
      (y.severity.Hard? ==> x.severity.Hard?) && (x.severity == y.severity ==> x.marginPercent >= y.marginPercent)
  {
    ComparePartition(baseline, posts, threshold);
    assert CausedBefore(Compare(baseline, posts, threshold).caused[i], Compare(baseline, posts, threshold).caused[j]);
  }

  lemma {:induction false} SeveritiesCover(s: seq<CausedViolation>)
    ensures |Filter(s, IsHardCaused)| + |Filter(s, IsBorderlineCaused)| == |s|
  {
    if s != [] {
      SeveritiesCover(s[..|s| - 1]);
    }
  }

  predicate IsNewFinding(c: CausedViolation) { c.change.NewViolation? }

  predicate IsWorsenedFinding(c: CausedViolation) { !c.change.NewViolation? }

  function Unknown(base: ByKey): Violation -> bool { v => KeyOf(v) !in base }

  /** Every post-connection finding is either listed or tolerated, with multiplicity, worst listed first. */
  lemma ComparePartition(baseline: seq<Violation>, posts: seq<Violation>, threshold: real)
    ensures var r := Compare(baseline, posts, threshold);
      && multiset(Filter(posts, Causes(LastBy(baseline, KeyOf), threshold)))
         + multiset(Filter(posts, Tolerates(LastBy(baseline, KeyOf), threshold))) == multiset(posts)
      && |r.caused| + |Filter(posts, Tolerates(LastBy(baseline, KeyOf), threshold))| == |posts|
      && Ordered(r.caused, CausedBefore)
  {
    var base := LastBy(baseline, KeyOf);
    var causes, tolerates := Causes(base, threshold), Tolerates(base, threshold);
    FilterSplits(posts, causes, tolerates);
    var kept := Filter(posts, causes);
    SortOrdered(Map(kept, Describing(base)), CausedBefore);
  }

  lemma NewCount(base: ByKey, posts: seq<Violation>, threshold: real)
    ensures |Filter(Map(Filter(posts, Causes(base, threshold)), Describing(base)), IsNewFinding)| == |Filter(posts, Unknown(base))|
  {
    var causes, unknown := Causes(base, threshold), Unknown(base);
    forall v ensures IsNewFinding(Describing(base)(v)) == unknown(v) && (unknown(v) ==> causes(v)) {
      assert Describing(base)(v) == Describe(base, v);
    }
    FilterMapCount(Filter(posts, causes), Describing(base), IsNewFinding, unknown);
    FilterFilter(posts, causes, unknown, unknown);
  }

  /** New, worsened and tolerated findings add up; the new ones are those without a baseline finding of their key. */
  lemma CompareCounts(baseline: seq<Violation>, posts: seq<Violation>, threshold: real)
    ensures var r := Compare(baseline, posts, threshold); var base := LastBy(baseline, KeyOf);
      && |Filter(r.caused, IsNewFinding)| == |Filter(posts, Unknown(base))|
      && |Filter(r.caused, IsNewFinding)| + |Filter(r.caused, IsWorsenedFinding)| + |Filter(posts, Tolerates(base, threshold))| == |posts|
  {
    var base := LastBy(baseline, KeyOf);
    var listed := Map(Filter(posts, Causes(base, threshold)), Describing(base));
    SortFilterCount(listed, CausedBefore, IsNewFinding);
    NewCount(base, posts, threshold);
    FilterSplits(Compare(baseline, posts, threshold).caused, IsNewFinding, IsWorsenedFinding);
    ComparePartition(baseline, posts, threshold);
  }

  /** A report compared with itself blames nothing when its keys are distinct and the threshold is not negative. */
  lemma CompareWithSelf(report: seq<Violation>, threshold: real)
    requires forall i, j | 0 <= i < j < |report| :: KeyOf(report[i]) != KeyOf(report[j])
    requires threshold >= 0.0
    ensures Compare(report, report, threshold).caused == []
  {
    SelfComparisonExact(report, threshold);
  }

  // No finding is worse than the last one with its key.
  ghost predicate NoneWorseThanLast(report: seq<Violation>, threshold: real) {
    forall i, j: nat | 0 <= i < |report| && IsLastWith(report, KeyOf, KeyOf(report[i]), j) :: NoWorse(report[j], report[i], threshold)
  }

  lemma OwnEntry(report: seq<Violation>, threshold: real, i: nat)
    requires i < |report|
    ensures Preexisting(report, report[i], threshold) <==>
      forall j: nat | IsLastWith(report, KeyOf, KeyOf(report[i]), j) :: NoWorse(report[j], report[i], threshold)
  {
    LastByLookup(report, KeyOf, KeyOf(report[i]));
    var j: nat :| IsLastWith(report, KeyOf, KeyOf(report[i]), j);
    assert forall k: nat | IsLastWith(report, KeyOf, KeyOf(report[i]), k) :: k == j;
  }

  /** A report compared with itself blames nothing exactly when no finding is worse than the last one with its key. */
  lemma SelfComparisonExact(report: seq<Violation>, threshold: real)
    ensures Compare(report, report, threshold).caused == [] <==> NoneWorseThanLast(report, threshold)
  {
    CompareBlames(report, report, threshold);
    forall i: nat | i < |report| ensures Preexisting(report, report[i], threshold) <==>
      forall j: nat | IsLastWith(report, KeyOf, KeyOf(report[i]), j) :: NoWorse(report[j], report[i], threshold)
    {
      OwnEntry(report, threshold, i);
    }
  }

  /** Two rows of the bus table whose index did not parse are such a case: both are reported as bus -1. */
  lemma RepeatedKeyBlamesItself()
    ensures var mild := Violation(BusElement, -1, LowVoltage, Borderline, AtLeast, 0.95, -1.0);
      var severe := mild.(severity := Hard, marginPercent := 4.0);
      Compare([severe, mild], [severe, mild], 2.0).caused != []
  {
    var mild := Violation(BusElement, -1, LowVoltage, Borderline, AtLeast, 0.95, -1.0);
    var report := [mild.(severity := Hard, marginPercent := 4.0), mild];
    assert IsLastWith(report, KeyOf, KeyOf(report[0]), 1) && !NoWorse(report[1], report[0], 2.0);
    SelfComparisonExact(report, 2.0);
  }

  lemma CausesMonotone(base: ByKey, v: Violation, low: real, high: real)
    requires low <= high && Causes(base, high)(v)
    ensures Causes(base, low)(v)
  {
  }

  /** Raising the threshold only removes entries, counted with multiplicity. */
  lemma CompareThresholdMonotone(baseline: seq<Violation>, posts: seq<Violation>, low: real, high: real)
    requires low <= high
    ensures multiset(Compare(baseline, posts, high).caused) <= multiset(Compare(baseline, posts, low).caused)
  {
    var base := LastBy(baseline, KeyOf);
    var loose, strict := Causes(base, high), Causes(base, low);
    forall v | v in posts && loose(v) ensures strict(v) {
      CausesMonotone(base, v, low, high);
    }
    MapFilterMonotone(posts, loose, strict, Describing(base));
  }

  // ---- the pipeline ----

  datatype CiaOptions = CiaOptions(
    enableContingency: bool,
    enableTransient: bool,
    enableEmt: bool,
    maxContingencies: int,
    threshold: real,
    failOnWorsening: bool)

  // ok = false carries only the baseline failure.
  datatype CiaReport =
    | BaselineFailed(error: string)
    | Report(recommendation: Recommendation, complete: bool, reasonCodes: seq<string>, stages: seq<Stage>)

  // The decimal text of a limit, counted in units of 1e-9, as signatures show it.
  type Repr = int -> string

  const HARD_CAUSED := "steady_state_project_hard_violations"
  const BORDERLINE_CAUSED := "steady_state_project_borderline_violations"
  const NOTHING_CAUSED := "steady_state_no_project_caused_violations"
  const HARD_BEFORE := "baseline_pre_existing_hard_violations"
  const BORDERLINE_BEFORE := "baseline_pre_existing_borderline_violations"

  function SteadyStage(comparison: Comparison, baseline: seq<Violation>): Stage {
    var codes :=
      (if comparison.hardCount > 0 then [HARD_CAUSED] else []) +
      (if comparison.borderlineCount > 0 then [BORDERLINE_CAUSED] else []);
    var note :=
      if Filter(baseline, IsHard) != [] then [HARD_BEFORE]
      else if Filter(baseline, IsBorderline) != [] then [BORDERLINE_BEFORE]
      else [];
    Stage(F1SteadyState,
      if comparison.hardCount > 0 then Fail else if comparison.borderlineCount > 0 then BorderlineStatus else Pass,
      Some(comparison.hardCount == 0),
      (if codes == [] then [NOTHING_CAUSED] else codes) + note)
  }

  lemma SteadyCodesDiffer()
    ensures HARD_CAUSED != BORDERLINE_CAUSED && HARD_CAUSED != NOTHING_CAUSED && HARD_CAUSED != HARD_BEFORE && HARD_CAUSED != BORDERLINE_BEFORE
    ensures BORDERLINE_CAUSED != NOTHING_CAUSED && BORDERLINE_CAUSED != HARD_BEFORE && BORDERLINE_CAUSED != BORDERLINE_BEFORE
    ensures NOTHING_CAUSED != HARD_BEFORE && NOTHING_CAUSED != BORDERLINE_BEFORE && HARD_BEFORE != BORDERLINE_BEFORE
  {
    assert |HARD_CAUSED| == 36 && |BORDERLINE_CAUSED| == 42 && |NOTHING_CAUSED| == 41 && |HARD_BEFORE| == 37 && |BORDERLINE_BEFORE| == 43;
  }

  lemma ChosenCodes(hard: bool, borderline: bool, hardBefore: bool, borderlineBefore: bool,
                    h: string, b: string, none: string, hb: string, bb: string)
    requires h != b && h != none && h != hb && h != bb && b != none && b != hb && b != bb && none != hb && none != bb && hb != bb
    ensures var named := (if hard then [h] else []) + (if borderline then [b] else []);
      var codes := (if named == [] then [none] else named) + (if hardBefore then [hb] else if borderlineBefore then [bb] else []);
      && (h in codes <==> hard) && (b in codes <==> borderline) && (none in codes <==> !hard && !borderline)
      && (hb in codes <==> hardBefore) && (bb in codes <==> !hardBefore && borderlineBefore)
  {
  }

  lemma StageCodes(comparison: Comparison, baseline: seq<Violation>)
    ensures var codes := SteadyStage(comparison, baseline).reasonCodes;
      && (HARD_CAUSED in codes <==> comparison.hardCount > 0)
      && (BORDERLINE_CAUSED in codes <==> comparison.borderlineCount > 0)
      && (NOTHING_CAUSED in codes <==> comparison.hardCount == comparison.borderlineCount == 0)
      && (HARD_BEFORE in codes <==> Filter(baseline, IsHard) != [])
      && (BORDERLINE_BEFORE in codes <==> Filter(baseline, IsHard) == [] && Filter(baseline, IsBorderline) != [])
  {
    SteadyCodesDiffer();
    ChosenCodes(comparison.hardCount > 0, comparison.borderlineCount > 0, Filter(baseline, IsHard) != [], Filter(baseline, IsBorderline) != [],
      HARD_CAUSED, BORDERLINE_CAUSED, NOTHING_CAUSED, HARD_BEFORE, BORDERLINE_BEFORE);
  }

  /** The reasons of the steady-state stage: what the project causes, and what was there before it. */
  lemma SteadyStageCodes(baseline: seq<Violation>, posts: seq<Violation>, threshold: real)
    ensures var comparison := Compare(baseline, posts, threshold); var codes := SteadyStage(comparison, baseline).reasonCodes;
      && (HARD_CAUSED in codes <==> comparison.hardCount > 0)
      && (BORDERLINE_CAUSED in codes <==> comparison.borderlineCount > 0)
      && (NOTHING_CAUSED in codes <==> comparison.caused == [])
      && (HARD_BEFORE in codes <==> exists v | v in baseline :: v.severity.Hard?)
      && (BORDERLINE_BEFORE in codes <==> baseline != [] && forall v | v in baseline :: v.severity.Borderline?)
  {
    StageCodes(Compare(baseline, posts, threshold), baseline);
    CompareBlames(baseline, posts, threshold);
    FilterNone(baseline, IsHard);
    FilterNone(baseline, IsBorderline);
    assert baseline != [] ==> baseline[0] in baseline;
  }

  function SkippedStage(name: StageName, reason: string): Stage { Stage(name, Skipped, Some(true), [reason]) }

  function NotRunStage(name: StageName, reason: string): Stage { Stage(name, NotRun, Some(false), [reason]) }

  function EmtStage(grid: Grid, c: Connection): Stage {
    match RunEmt(grid, c, DEFAULT_SCR_THRESHOLD, DEFAULT_BORDERLINE_MARGIN)
    case Raised(_) => Stage(F4Emt, Unavailable, Some(false), ["emt_screening_unavailable"])
    case Returned(_, status, passed, _, codes, _) => Stage(F4Emt, status, Some(passed), codes)
  }

  function DynamicStages(grid: Grid, c: Connection, opts: CiaOptions, blocked: Option<string>): seq<Stage> {
    var ibr := EffectiveIsIbr(c);
    var f3 :=
      if blocked.Some? && opts.enableTransient && ibr then NotRunStage(F3Transient, blocked.value)
      else if opts.enableTransient && ibr then
        Stage(F3Transient, NotImplemented, Some(false), ["f3_transient_stability_not_implemented"])
      else SkippedStage(F3Transient, if opts.enableTransient then "non_ibr_request" else "transient_disabled");
    var f4 :=
      if blocked.Some? && opts.enableEmt && ibr then NotRunStage(F4Emt, blocked.value)
      else if opts.enableEmt && ibr then EmtStage(grid, c)
      else SkippedStage(F4Emt, if opts.enableEmt then "non_ibr_request" else "emt_disabled");
    [f3, f4]
  }

  /** The two N-1 studies and their comparison; a seed power flow that fails is Err. */
  function ContingencyComparison(grid: Grid, c: Connection, opts: CiaOptions, repr: Repr): Result<C.Comparison, string> {
    match C.RunStudy(grid, None, opts.maxContingencies)
    case Err(error) => Err(error)
    case Ok(baseline) =>
      match C.RunStudy(grid, Some(c), opts.maxContingencies)
      case Err(error) => Err(error)
      case Ok(post) =>
        Ok(C.Compare(C.FailuresOf(baseline.results), C.FailuresOf(post.results), opts.threshold, opts.failOnWorsening, C.Signing(repr)))
  }

  function DownstreamStages(grid: Grid, c: Connection, steadyPassed: bool, opts: CiaOptions, repr: Repr): Result<seq<Stage>, string> {
    if !steadyPassed then
      var reason := "upstream_steady_state_failed";
      var n1 := if opts.enableContingency then NotRunStage(F2Contingency, reason) else SkippedStage(F2Contingency, "contingency_disabled");
      Ok([n1] + DynamicStages(grid, c, opts, Some(reason)))
    else if opts.enableContingency then
      match ContingencyComparison(grid, c, opts, repr)
      case Err(error) => Err(error)
      case Ok(comparison) =>
        var n1 := C.ContingencyStageReport(comparison);
        Ok([n1] + DynamicStages(grid, c, opts, if n1.status.Fail? then Some("upstream_contingency_failed") else None))
    else
      Ok([SkippedStage(F2Contingency, "contingency_disabled")] + DynamicStages(grid, c, opts, None))
  }

  predicate HasFailed(s: Stage) { s.status.Fail? }

  predicate IsNotImplemented(s: Stage) { s.status.NotImplemented? }

  function CodesOf(stages: seq<Stage>): seq<string> {
    if stages == [] then [] else CodesOf(stages[..|stages| - 1]) + stages[|stages| - 1].reasonCodes
  }

  function DownstreamComplete(stages: seq<Stage>): bool { Filter(stages, IsNotImplemented) == [] }

  function Recommend(steady: Stage, downstream: seq<Stage>): (Recommendation, seq<string>, bool) {
    var failed, incomplete := Filter(downstream, HasFailed), Filter(downstream, IsNotImplemented);
    if steady.status.Fail? then (Reject, steady.reasonCodes, DownstreamComplete(downstream))
    else if failed != [] then (Reject, steady.reasonCodes + CodesOf(failed), DownstreamComplete(downstream))
    else if incomplete != [] then (BorderlineVerdict, steady.reasonCodes + CodesOf(incomplete), false)
    else if steady.status.BorderlineStatus? then (BorderlineVerdict, steady.reasonCodes, true)
    else (Approve, steady.reasonCodes, true)
  }

  method ExtendCodes(codes: seq<string>, stages: seq<Stage>) returns (r: seq<string>)
    ensures r == codes + CodesOf(stages)
  {
    r := codes;
    for k := 0 to |stages|
      invariant r == codes + CodesOf(stages[..k])
    {
      assert stages[..k + 1][..k] == stages[..k];
      r := r + stages[k].reasonCodes;
    }
    assert stages[..|stages|] == stages;
  }

  /** `_recommend` as its loops run. */
  method RecommendStages(steady: Stage, downstream: seq<Stage>)
    returns (recommendation: Recommendation, codes: seq<string>, complete: bool)
    ensures (recommendation, codes, complete) == Recommend(steady, downstream)
  {
    codes := steady.reasonCodes;
    if steady.status.Fail? {
      return Reject, codes, DownstreamComplete(downstream);
    }
    var failed := Filter(downstream, HasFailed);
    codes := ExtendCodes(codes, failed);
    if failed != [] {
      return Reject, codes, DownstreamComplete(downstream);
    }
    var incomplete := Filter(downstream, IsNotImplemented);
    codes := ExtendCodes(steady.reasonCodes, incomplete);
    if incomplete != [] {
      return BorderlineVerdict, codes, false;
    }
    codes := steady.reasonCodes;
    return if steady.status.BorderlineStatus? then BorderlineVerdict else Approve, codes, true;
  }

  function RequestedStages(opts: CiaOptions): seq<StageName> {
    (if opts.enableContingency then [F2Contingency] else []) +
    (if opts.enableTransient then [F3Transient] else []) +
    (if opts.enableEmt then [F4Emt] else [])
  }

  /** `SteadyStateCIARunner.run`; an exception that escapes it is Err. */
  function Run(grid: Grid, c: Connection, opts: CiaOptions, repr: Repr): Result<CiaReport, string> {
    match grid.flow(None, None)
    case Diverged(error) => Ok(BaselineFailed(error))
    case Converged(baseline, _) =>
      if AttachError(grid, c).Some? then Err(AttachError(grid, c).value)
      else match grid.flow(Some(c), None)
      case Diverged(error) =>
        var requested := RequestedStages(opts);
        var f1 := Stage(F1SteadyState, Fail, Some(false), ["post_powerflow_non_convergence"]);
        Ok(Report(Reject, requested == [], f1.reasonCodes,
          [f1] + Map(requested, name => NotRunStage(name, "upstream_steady_state_failed"))))
      case Converged(post, _) =>
        var steady := SteadyStage(Compare(baseline, post, opts.threshold), baseline);
        match DownstreamStages(grid, c, steady.passed == Some(true), opts, repr)
        case Err(error) => Err(error)
        case Ok(downstream) =>
          var (recommendation, codes, complete) := Recommend(steady, downstream);
          Ok(Report(recommendation, complete, codes, [steady] + downstream))
  }

  // ---- what an approval means ----

  // Everything up to the comparisons succeeds: both power flows converge and the connection can be attached.
  predicate Solves(grid: Grid, c: Connection) {
    grid.flow(None, None).Converged? && AttachError(grid, c).None? && grid.flow(Some(c), None).Converged?
  }

  /** Both power flows converge with the connection attached, and every post-connection finding was there before. */
  ghost predicate SteadyClean(grid: Grid, c: Connection, threshold: real) {
    var baseline, post := grid.flow(None, None), grid.flow(Some(c), None);
    && Solves(grid, c)
    && forall v | v in post.normal :: Preexisting(baseline.normal, v, threshold)
  }

  /** No evaluated outage fails with the project in a way that was not there before. */
  ghost predicate ContingencyClean(grid: Grid, c: Connection, opts: CiaOptions) {
    C.NoProjectFailure(grid, c, opts.maxContingencies, opts.threshold, opts.failOnWorsening)
  }

  lemma CleanContingencies(grid: Grid, c: Connection, opts: CiaOptions, repr: Repr)
    requires Solves(grid, c)
    ensures var r := ContingencyComparison(grid, c, opts, repr);
      && r.Ok?
      && (C.Injective(repr) ==> (r.value.failureCount == 0 <==> ContingencyClean(grid, c, opts)))
  {
    var baseline := C.StudyFailures(grid, None, opts.maxContingencies);
    var posts := C.StudyFailures(grid, Some(c), opts.maxContingencies);
    var r := ContingencyComparison(grid, c, opts, repr);
    assert r == Ok(C.Compare(baseline, posts, opts.threshold, opts.failOnWorsening, C.Signing(repr)));
    if C.Injective(repr) {
      C.NoFailureCounted(grid, c, opts.maxContingencies, opts.threshold, opts.failOnWorsening, repr);
    }
  }

  /** What the transient and EMT flags still ask for. */
  predicate DynamicsAllow(grid: Grid, c: Connection, opts: CiaOptions) {
    EffectiveIsIbr(c) ==> !opts.enableTransient && (opts.enableEmt ==> !EmtStage(grid, c).status.Fail?)
  }

  lemma EmtStageStatuses(grid: Grid, c: Connection)
    ensures EmtStage(grid, c).status in {Pass, BorderlineStatus, Fail, Skipped, Error, Unavailable}
  {
  }

  lemma RecommendApproves(steady: Stage, downstream: seq<Stage>)
    ensures Recommend(steady, downstream).0.Approve? <==>
      !steady.status.Fail? && !steady.status.BorderlineStatus? &&
      forall s | s in downstream :: !s.status.Fail? && !s.status.NotImplemented?
  {
    FilterNone(downstream, HasFailed);
    FilterNone(downstream, IsNotImplemented);
  }

  lemma SteadyApproves(grid: Grid, c: Connection, threshold: real)
    requires Solves(grid, c)
    ensures var baseline := grid.flow(None, None).normal;
      var steady := SteadyStage(Compare(baseline, grid.flow(Some(c), None).normal, threshold), baseline);
      && (steady.status.Pass? <==> SteadyClean(grid, c, threshold))
      && (steady.passed == Some(true) <==> !steady.status.Fail?)
  {
    CompareBlames(grid.flow(None, None).normal, grid.flow(Some(c), None).normal, threshold);
  }

  lemma UnblockedDynamics(grid: Grid, c: Connection, opts: CiaOptions)
    ensures var stages := DynamicStages(grid, c, opts, None);
      && ((forall s | s in stages :: !s.status.Fail? && !s.status.NotImplemented?) <==> DynamicsAllow(grid, c, opts))
      && (forall s | s in stages :: !s.status.NotRun?)
  {
    EmtStageStatuses(grid, c);
    var stages := DynamicStages(grid, c, opts, None);
    assert forall s | s in stages :: s == stages[0] || s == stages[1];
    assert stages[0] in stages && stages[1] in stages;
  }

  lemma DownstreamApproves(grid: Grid, c: Connection, opts: CiaOptions, repr: Repr)
    requires Solves(grid, c)
    ensures var r := DownstreamStages(grid, c, true, opts, repr);
      && r.Ok?
      && (C.Injective(repr) ==>
          ((forall s | s in r.value :: !s.status.Fail? && !s.status.NotImplemented?) <==>
           (opts.enableContingency ==> ContingencyClean(grid, c, opts)) && DynamicsAllow(grid, c, opts)))
      && ((forall s | s in r.value :: !s.status.Fail?) ==> forall s | s in r.value :: !s.status.NotRun?)
      && ((forall s | s in r.value :: !s.status.Fail? && !s.status.NotImplemented?) ==>
          DynamicsAllow(grid, c, opts) && r.value[1..] == DynamicStages(grid, c, opts, None))
  {
    CleanContingencies(grid, c, opts, repr);
    UnblockedDynamics(grid, c, opts);
    var stages := DownstreamStages(grid, c, true, opts, repr).value;
    var n1 := stages[0];
    assert n1 in stages;
    assert n1.status.Fail? || stages == [n1] + DynamicStages(grid, c, opts, None);
    assert C.Injective(repr) ==> (!n1.status.Fail? <==> (opts.enableContingency ==> ContingencyClean(grid, c, opts)));
  }

  // The stages of a run in which both steady-state power flows converge.
  lemma ConvergedRun(grid: Grid, c: Connection, opts: CiaOptions, repr: Repr) returns (steady: Stage, downstream: seq<Stage>)
    requires Solves(grid, c)
    ensures steady.status.Pass? <==> SteadyClean(grid, c, opts.threshold)
    ensures DownstreamStages(grid, c, !steady.status.Fail?, opts, repr) == Ok(downstream)
    ensures var (recommendation, codes, complete) := Recommend(steady, downstream);
      Run(grid, c, opts, repr) == Ok(Report(recommendation, complete, codes, [steady] + downstream))
    ensures steady.status in {Pass, BorderlineStatus, Fail}
  {
    var baseline := grid.flow(None, None).normal;
    steady := SteadyStage(Compare(baseline, grid.flow(Some(c), None).normal, opts.threshold), baseline);
    SteadyApproves(grid, c, opts.threshold);
    DownstreamApproves(grid, c, opts, repr);
    downstream := DownstreamStages(grid, c, steady.passed == Some(true), opts, repr).value;
  }

  /** The assessment raises exactly when the baseline solves and the connection cannot be attached; it approves exactly
      when the network converges with and without the project, nothing steady-state or N-1 is blamed on it, and no
      enabled dynamic stage objects. */
  lemma ApprovalIsExact(grid: Grid, c: Connection, opts: CiaOptions, repr: Repr)
    requires C.Injective(repr)
    ensures var r := Run(grid, c, opts, repr);
      && (r.Err? <==> grid.flow(None, None).Converged? && AttachError(grid, c).Some?)
      && (Approved(r) <==>
            SteadyClean(grid, c, opts.threshold)
            && (opts.enableContingency ==> ContingencyClean(grid, c, opts))
            && DynamicsAllow(grid, c, opts))
  {
    if Solves(grid, c) {
      var steady, downstream := ConvergedRun(grid, c, opts, repr);
      DownstreamApproves(grid, c, opts, repr);
      RecommendApproves(steady, downstream);
    }
  }

  // ---- the whole report, read off the network ----

  /** Some finding with the project was not there before. */
  ghost predicate Caused(grid: Grid, c: Connection, threshold: real) {
    Solves(grid, c) && exists v | v in grid.flow(Some(c), None).normal :: !Preexisting(grid.flow(None, None).normal, v, threshold)
  }

  /** Some hard one. */
  ghost predicate HardCaused(grid: Grid, c: Connection, threshold: real) {
    Solves(grid, c) && exists v | v in grid.flow(Some(c), None).normal :: v.severity.Hard? && !Preexisting(grid.flow(None, None).normal, v, threshold)
  }

  /** The outcome of the EMT screen of a power-electronic project at a threshold of 3 and a margin of 0.25. */
  function EmtOutcome(grid: Grid, c: Connection): Status {
    var mva := grid.hypot(c.pMw, c.qMvar);
    if mva <= 0.0 then Fail
    else if grid.strength(c).None? || grid.strength(c).value <= 0.0 then Unavailable
    else if grid.strength(c).value >= 3.25 * mva then Pass
    else if grid.strength(c).value >= 3.0 * mva then BorderlineStatus
    else Fail
  }

  lemma EmtStageOutcome(grid: Grid, c: Connection)
    requires Solves(grid, c) && EffectiveIsIbr(c)
    ensures EmtStage(grid, c).name == F4Emt && EmtStage(grid, c).status == EmtOutcome(grid, c)
    ensures EmtStage(grid, c).passed == Some(EmtOutcome(grid, c).Pass?)
  {
    ScreenMeaning(grid, c, DEFAULT_SCR_THRESHOLD, DEFAULT_BORDERLINE_MARGIN);
  }

  // The N-1 stage stops the later ones.
  ghost predicate ContingencyFails(grid: Grid, c: Connection, opts: CiaOptions) {
    opts.enableContingency && !ContingencyClean(grid, c, opts)
  }

  ghost predicate Blocked(grid: Grid, c: Connection, opts: CiaOptions) {
    HardCaused(grid, c, opts.threshold) || ContingencyFails(grid, c, opts)
  }

  ghost predicate SteadyIs(grid: Grid, c: Connection, threshold: real, s: Stage) {
    && s.name == F1SteadyState && s.passed == Some(!HardCaused(grid, c, threshold))
    && s.status == if HardCaused(grid, c, threshold) then Fail else if Caused(grid, c, threshold) then BorderlineStatus else Pass
  }

  ghost predicate ContingencyIs(grid: Grid, c: Connection, opts: CiaOptions, s: Stage) {
    && s.name == F2Contingency && s.passed == Some(s.status in {Pass, Skipped})
    && s.status == if !opts.enableContingency then Skipped else if HardCaused(grid, c, opts.threshold) then NotRun
         else if ContingencyClean(grid, c, opts) then Pass else Fail
  }

  predicate TransientIs(c: Connection, opts: CiaOptions, blocked: bool, s: Stage) {
    && s.name == F3Transient && s.passed == Some(s.status.Skipped?)
    && s.status == if !opts.enableTransient || !EffectiveIsIbr(c) then Skipped else if blocked then NotRun else NotImplemented
  }

  predicate EmtIs(grid: Grid, c: Connection, opts: CiaOptions, blocked: bool, s: Stage) {
    && s.name == F4Emt && s.passed == Some(s.status in {Pass, Skipped})
    && s.status == if !opts.enableEmt || !EffectiveIsIbr(c) then Skipped else if blocked then NotRun else EmtOutcome(grid, c)
  }

  /** The four stages of a run in which everything solves. */
  ghost predicate StagesOf(grid: Grid, c: Connection, opts: CiaOptions, stages: seq<Stage>) {
    && |stages| == 4
    && SteadyIs(grid, c, opts.threshold, stages[0])
    && ContingencyIs(grid, c, opts, stages[1])
    && TransientIs(c, opts, Blocked(grid, c, opts), stages[2])
    && EmtIs(grid, c, opts, Blocked(grid, c, opts), stages[3])
  }

  function SteadyOf(grid: Grid, c: Connection, threshold: real): Stage
    requires Solves(grid, c)
  {
    var baseline := grid.flow(None, None).normal;
    SteadyStage(Compare(baseline, grid.flow(Some(c), None).normal, threshold), baseline)
  }

  // In what follows an equation `true == P(..)` keeps a predicate one fact for the verifier.
  lemma SteadyOutcome(grid: Grid, c: Connection, threshold: real)
    requires Solves(grid, c)
    ensures true == SteadyIs(grid, c, threshold, SteadyOf(grid, c, threshold))
  {
    CompareBlames(grid.flow(None, None).normal, grid.flow(Some(c), None).normal, threshold);
  }

  lemma DynamicOutcomes(grid: Grid, c: Connection, opts: CiaOptions, blocked: Option<string>)
    requires Solves(grid, c)
    ensures var stages := DynamicStages(grid, c, opts, blocked);
      |stages| == 2 && true == TransientIs(c, opts, blocked.Some?, stages[0]) && true == EmtIs(grid, c, opts, blocked.Some?, stages[1])
  {
    if EffectiveIsIbr(c) {
      EmtStageOutcome(grid, c);
    }
  }

  lemma DownstreamOutcomes(grid: Grid, c: Connection, opts: CiaOptions, repr: Repr) returns (n1: Stage, blocked: Option<string>)
    requires Solves(grid, c) && C.Injective(repr)
    ensures ContingencyIs(grid, c, opts, n1) && (blocked.Some? <==> Blocked(grid, c, opts))
    ensures DownstreamStages(grid, c, !HardCaused(grid, c, opts.threshold), opts, repr) == Ok([n1] + DynamicStages(grid, c, opts, blocked))
  {
    var stages := DownstreamStages(grid, c, !HardCaused(grid, c, opts.threshold), opts, repr);
    if HardCaused(grid, c, opts.threshold) {
      var reason := "upstream_steady_state_failed";
      n1 := if opts.enableContingency then NotRunStage(F2Contingency, reason) else SkippedStage(F2Contingency, "contingency_disabled");
      blocked := Some(reason);
    } else if opts.enableContingency {
      CleanContingencies(grid, c, opts, repr);
      n1 := C.ContingencyStageReport(ContingencyComparison(grid, c, opts, repr).value);
      blocked := if n1.status.Fail? then Some("upstream_contingency_failed") else None;
    } else {
      n1, blocked := SkippedStage(F2Contingency, "contingency_disabled"), None;
    }
  }

  lemma RunOfStages(grid: Grid, c: Connection, opts: CiaOptions, repr: Repr, downstream: seq<Stage>)
    requires Solves(grid, c)
    requires DownstreamStages(grid, c, SteadyOf(grid, c, opts.threshold).passed == Some(true), opts, repr) == Ok(downstream)
    ensures Run(grid, c, opts, repr) == Ok(ReportOf([SteadyOf(grid, c, opts.threshold)] + downstream))
  {
    var stages := [SteadyOf(grid, c, opts.threshold)] + downstream;
    assert stages[1..] == downstream;
  }

  // The verdict follows from the stages.
  function ReportOf(stages: seq<Stage>): CiaReport
    requires stages != []
  {
    var (recommendation, codes, complete) := Recommend(stages[0], stages[1..]);
    Report(recommendation, complete, codes, stages)
  }

  /** The stages a run reports, and how the verdict follows from them. */
  lemma RunStages(grid: Grid, c: Connection, opts: CiaOptions, repr: Repr) returns (stages: seq<Stage>)
    requires true == Solves(grid, c) && true == C.Injective(repr)
    ensures true == StagesOf(grid, c, opts, stages)
    ensures |stages| == 4 && Run(grid, c, opts, repr) == Ok(ReportOf(stages))
  {
    var n1, blocked := DownstreamOutcomes(grid, c, opts, repr);
    stages := AssembledStages(grid, c, opts, n1, blocked);
    RunOfStages(grid, c, opts, repr, stages[1..]);
    assert [stages[0]] + stages[1..] == stages;
  }

  lemma AssembledStages(grid: Grid, c: Connection, opts: CiaOptions, n1: Stage, blocked: Option<string>) returns (stages: seq<Stage>)
    requires true == Solves(grid, c)
    requires true == ContingencyIs(grid, c, opts, n1) && blocked.Some? == Blocked(grid, c, opts)
    ensures true == StagesOf(grid, c, opts, stages) && |stages| == 4 && stages[0] == SteadyOf(grid, c, opts.threshold)
    ensures stages[0].passed == Some(!HardCaused(grid, c, opts.threshold))
    ensures stages[1..] == [n1] + DynamicStages(grid, c, opts, blocked)
  {
    SteadyOutcome(grid, c, opts.threshold);
    DynamicOutcomes(grid, c, opts, blocked);
    var dynamics := DynamicStages(grid, c, opts, blocked);
    stages := [SteadyOf(grid, c, opts.threshold), n1, dynamics[0], dynamics[1]];
    assert [n1] + dynamics == stages[1..];
  }

  /** Recommendation and completeness by statuses: a failed stage rejects; without one, a stage that is not implemented or
      borderline steady-state findings make it borderline; only a stage that is not implemented leaves it incomplete. */
  lemma RecommendMeaning(steady: Stage, downstream: seq<Stage>)
    ensures var (recommendation, codes, complete) := Recommend(steady, downstream);
      var fails := steady.status.Fail? || exists s | s in downstream :: s.status.Fail?;
      var missing := exists s | s in downstream :: s.status.NotImplemented?;
      && (recommendation.Reject? <==> fails)
      && (recommendation.BorderlineVerdict? <==> !fails && (missing || steady.status.BorderlineStatus?))
      && (complete <==> !missing)
  {
    FilterNone(downstream, HasFailed);
    FilterNone(downstream, IsNotImplemented);
  }

  lemma {:induction false} CodesOfMembers(stages: seq<Stage>, code: string)
    ensures code in CodesOf(stages) <==> exists s | s in stages :: code in s.reasonCodes
  {
    if stages != [] {
      var k := |stages| - 1;
      assert stages == stages[..k] + [stages[k]];
      CodesOfMembers(stages[..k], code);
    }
  }

  /** The reasons given: those of the steady stage and, unless it failed, those of the failed stages, or else of the stages
      that are not implemented. */
  lemma RecommendReasons(steady: Stage, downstream: seq<Stage>, code: string)
    ensures var codes := Recommend(steady, downstream).1;
      var fails := exists s | s in downstream :: s.status.Fail?;
      code in codes <==>
        (code in steady.reasonCodes || (!steady.status.Fail? &&
          exists s | s in downstream :: (if fails then s.status.Fail? else s.status.NotImplemented?) && code in s.reasonCodes))
    ensures steady.reasonCodes <= Recommend(steady, downstream).1
  {
    FilterNone(downstream, HasFailed);
    FilterNone(downstream, IsNotImplemented);
    CodesOfMembers(Filter(downstream, HasFailed), code);
    CodesOfMembers(Filter(downstream, IsNotImplemented), code);
  }

  // The power flow with the project attached diverges.
  predicate PostDiverges(grid: Grid, c: Connection) {
    grid.flow(None, None).Converged? && AttachError(grid, c).None? && grid.flow(Some(c), None).Diverged?
  }

  // An unblocked EMT stage fails.
  ghost predicate EmtFails(grid: Grid, c: Connection, opts: CiaOptions) {
    opts.enableEmt && EffectiveIsIbr(c) && EmtOutcome(grid, c).Fail?
  }

  /** The verdict, end to end: a project is rejected exactly when its power flow diverges, it causes a hard finding, it is
      to blame for an outage, or its EMT screen fails; it is borderline exactly when none of these holds and a transient
      study is asked for that does not exist, or it causes some finding; the report is incomplete exactly when that study
      is asked for and not blocked, or when anything is asked for after a divergence. */
  lemma VerdictIsExact(grid: Grid, c: Connection, opts: CiaOptions, repr: Repr)
    requires C.Injective(repr)
    ensures var r := Run(grid, c, opts, repr);
      var rejects := HardCaused(grid, c, opts.threshold) || ContingencyFails(grid, c, opts) || EmtFails(grid, c, opts);
      var transient := opts.enableTransient && EffectiveIsIbr(c);
      r.Ok? && r.value.Report? ==>
        && (Solves(grid, c) || PostDiverges(grid, c))
        && (r.value.recommendation.Reject? <==> PostDiverges(grid, c) || rejects)
        && (r.value.recommendation.BorderlineVerdict? <==> Solves(grid, c) && !rejects && (transient || Caused(grid, c, opts.threshold)))
        && (r.value.complete <==>
             if PostDiverges(grid, c) then !opts.enableContingency && !opts.enableTransient && !opts.enableEmt
             else !(transient && !Blocked(grid, c, opts)))
  {
    if Solves(grid, c) {
      var stages := RunStages(grid, c, opts, repr);
      VerdictOfStages(grid, c, opts, stages);
    }
  }

  lemma VerdictOfStages(grid: Grid, c: Connection, opts: CiaOptions, stages: seq<Stage>)
    requires Solves(grid, c) && true == StagesOf(grid, c, opts, stages)
    ensures |stages| == 4
    ensures var (recommendation, codes, complete) := Recommend(stages[0], stages[1..]);
      var rejects := HardCaused(grid, c, opts.threshold) || ContingencyFails(grid, c, opts) || EmtFails(grid, c, opts);
      var transient := opts.enableTransient && EffectiveIsIbr(c);
      && (recommendation.Reject? <==> rejects)
      && (recommendation.BorderlineVerdict? <==> !rejects && (transient || Caused(grid, c, opts.threshold)))
      && (complete <==> !(transient && !Blocked(grid, c, opts)))
  {
    VerdictByFlags(stages, opts, EffectiveIsIbr(c), EmtOutcome(grid, c),
      HardCaused(grid, c, opts.threshold), Caused(grid, c, opts.threshold), ContingencyClean(grid, c, opts));
  }

  lemma VerdictByFlags(stages: seq<Stage>, opts: CiaOptions, ibr: bool, emt: Status, hard: bool, caused: bool, clean: bool)
    requires |stages| == 4 && !emt.NotImplemented?
    requires stages[0].status == if hard then Fail else if caused then BorderlineStatus else Pass
    requires stages[1].status == if !opts.enableContingency then Skipped else if hard then NotRun else if clean then Pass else Fail
    requires var blocked := hard || (opts.enableContingency && !clean);
      && stages[2].status == (if !opts.enableTransient || !ibr then Skipped else if blocked then NotRun else NotImplemented)
      && stages[3].status == (if !opts.enableEmt || !ibr then Skipped else if blocked then NotRun else emt)
    ensures var (recommendation, codes, complete) := Recommend(stages[0], stages[1..]);
      var blocked := hard || (opts.enableContingency && !clean);
      var rejects := blocked || (opts.enableEmt && ibr && emt.Fail?);
      var transient := opts.enableTransient && ibr;
      && (recommendation.Reject? <==> rejects)
      && (recommendation.BorderlineVerdict? <==> !rejects && (transient || caused))
      && (complete <==> !(transient && !blocked))
  {
    VerdictOfFour(stages);
  }

  lemma VerdictOfFour(stages: seq<Stage>)
    requires |stages| == 4
    ensures var (recommendation, codes, complete) := Recommend(stages[0], stages[1..]);
      var fails := stages[0].status.Fail? || stages[1].status.Fail? || stages[2].status.Fail? || stages[3].status.Fail?;
      var missing := stages[1].status.NotImplemented? || stages[2].status.NotImplemented? || stages[3].status.NotImplemented?;
      && (recommendation.Reject? <==> fails)
      && (recommendation.BorderlineVerdict? <==> !fails && (missing || stages[0].status.BorderlineStatus?))
      && (complete <==> !missing)
  {
    RecommendMeaning(stages[0], stages[1..]);
    assert stages[1..] == [stages[1], stages[2], stages[3]];
  }

  lemma RequestedMembers(opts: CiaOptions, name: StageName)
    ensures name in RequestedStages(opts) <==>
      match name
      case F1SteadyState => false
      case F2Contingency => opts.enableContingency
      case F3Transient => opts.enableTransient
      case F4Emt => opts.enableEmt
    ensures |RequestedStages(opts)| ==
      (if opts.enableContingency then 1 else 0) + (if opts.enableTransient then 1 else 0) + (if opts.enableEmt then 1 else 0)
  {
  }

  lemma NamedStage(requested: seq<StageName>, reason: string, name: StageName)
    ensures (exists s | s in Map(requested, n => NotRunStage(n, reason)) :: s.name == name) <==> name in requested
  {
    var rest := Map(requested, n => NotRunStage(n, reason));
    if name in requested {
      var i :| 0 <= i < |requested| && requested[i] == name;
      assert rest[i] in rest;
    }
  }

  /** After a divergence the report lists the failed steady-state stage and every stage asked for as not run. */
  lemma DivergedReport(grid: Grid, c: Connection, opts: CiaOptions, repr: Repr, name: StageName)
    requires PostDiverges(grid, c)
    ensures var r := Run(grid, c, opts, repr);
      && r.Ok? && r.value.Report? && r.value.recommendation.Reject? && r.value.stages != []
      && r.value.stages[0].name == F1SteadyState && r.value.stages[0].status.Fail?
      && (forall s | s in r.value.stages[1..] :: s.status.NotRun?)
      && |r.value.stages| == 1 + (if opts.enableContingency then 1 else 0) + (if opts.enableTransient then 1 else 0) + (if opts.enableEmt then 1 else 0)
      && ((exists s | s in r.value.stages[1..] :: s.name == name) <==>
           match name
           case F1SteadyState => false
           case F2Contingency => opts.enableContingency
           case F3Transient => opts.enableTransient
           case F4Emt => opts.enableEmt)
  {
    var stages := Run(grid, c, opts, repr).value.stages;
    var rest := Map(RequestedStages(opts), name => NotRunStage(name, "upstream_steady_state_failed"));
    assert stages[1..] == rest;
    NamedStage(RequestedStages(opts), "upstream_steady_state_failed", name);
    RequestedMembers(opts, name);
  }

  /** Only a baseline that does not converge yields a report without recommendation, and only a connection that cannot
      be attached to a solved baseline raises. */
  lemma OnlyBaselineFails(grid: Grid, c: Connection, opts: CiaOptions, repr: Repr)
    ensures var r := Run(grid, c, opts, repr);
      && (r.Err? <==> grid.flow(None, None).Converged? && AttachError(grid, c).Some?)
      && (r.Err? ==> r.error == AttachError(grid, c).value)
      && (r.Ok? && r.value.BaselineFailed? <==> grid.flow(None, None).Diverged?)
  {
    if Solves(grid, c) {
      var steady, downstream := ConvergedRun(grid, c, opts, repr);
    }
  }

  predicate Approved(r: Result<CiaReport, string>) { r.Ok? && r.value.Report? && r.value.recommendation.Approve? }

  // What an approved run looks like.
  lemma ApprovedRun(grid: Grid, c: Connection, opts: CiaOptions, repr: Repr) returns (steady: Stage, downstream: seq<Stage>)
    requires Approved(Run(grid, c, opts, repr))
    ensures Solves(grid, c) && DynamicsAllow(grid, c, opts)
    ensures Run(grid, c, opts, repr).value.stages == [steady] + downstream && Run(grid, c, opts, repr).value.complete
    ensures steady.status.Pass? && downstream != [] && downstream[1..] == DynamicStages(grid, c, opts, None)
    ensures forall s | s in downstream :: !s.status.Fail? && !s.status.NotRun? && !s.status.NotImplemented?
  {
    assert Solves(grid, c);
    steady, downstream := ConvergedRun(grid, c, opts, repr);
    DownstreamApproves(grid, c, opts, repr);
    RecommendApproves(steady, downstream);
  }

  /** No approved report lists a stage that failed, was blocked, or is not implemented. */
  lemma ApprovedStagesClean(grid: Grid, c: Connection, opts: CiaOptions, repr: Repr)
    ensures var r := Run(grid, c, opts, repr);
      Approved(r) ==> r.value.complete && forall s | s in r.value.stages :: !s.status.Fail? && !s.status.NotRun? && !s.status.NotImplemented?
  {
    if Approved(Run(grid, c, opts, repr)) {
      var steady, downstream := ApprovedRun(grid, c, opts, repr);
    }
  }

  /** What an approval with the EMT stage switched on says about a power-electronic project: the stage passed exactly
      when the strength covers 3.25 times the size, and is let through as borderline or unavailable otherwise. */
  lemma ApprovedEmtOutcome(grid: Grid, c: Connection, opts: CiaOptions, repr: Repr)
    requires opts.enableEmt && EffectiveIsIbr(c)
    requires Approved(Run(grid, c, opts, repr))
    ensures var status, mva := EmtStage(grid, c).status, grid.hypot(c.pMw, c.qMvar);
      && EmtStage(grid, c) in Run(grid, c, opts, repr).value.stages && mva > 0.0
      && (status.Pass? <==> grid.strength(c).Some? && grid.strength(c).value >= 3.25 * mva)
      && (status.BorderlineStatus? <==> grid.strength(c).Some? && 3.0 * mva <= grid.strength(c).value < 3.25 * mva)
      && (status.Unavailable? <==> !HasStrength(grid, c))
  {
    ScreenMeaning(grid, c, DEFAULT_SCR_THRESHOLD, DEFAULT_BORDERLINE_MARGIN);
    var steady, downstream := ApprovedRun(grid, c, opts, repr);
    assert downstream[1..][1] == EmtStage(grid, c);
    assert ([steady] + downstream)[3] == EmtStage(grid, c);
  }

  // A network without findings or outages, its short-circuit strength at every bus given, and projects of 1 MVA.
  function QuietGrid(strength: Option<real>): Grid {
    Grid(_ => None, (_, _) => Converged([], []), _ => [], _ => strength, (_, _) => 1.0)
  }

  const SOLAR_PARK := Connection(1, 1.0, "solar", true, 0.0, 1.0)
  const WITH_EMT := CiaOptions(false, false, true, -1, 2.0, false)

  /** So approval does not mean the EMT stage passed: here it also comes with a screen that could not run, and with one
      between 3 and 3.25 times the size. */
  lemma ApprovalToleratesEmt(repr: Repr, strength: Option<real>)
    requires C.Injective(repr) && (strength.Some? ==> strength.value >= 3.0)
    ensures Approved(Run(QuietGrid(strength), SOLAR_PARK, WITH_EMT, repr))
    ensures EmtStage(QuietGrid(strength), SOLAR_PARK).status ==
      if strength.None? then Unavailable else if strength.value < 3.25 then BorderlineStatus else Pass
  {
    var grid := QuietGrid(strength);
    assert AttachError(grid, SOLAR_PARK).None? && EffectiveIsIbr(SOLAR_PARK) && grid.hypot(SOLAR_PARK.pMw, SOLAR_PARK.qMvar) == 1.0;
    ScreenMeaning(grid, SOLAR_PARK, DEFAULT_SCR_THRESHOLD, DEFAULT_BORDERLINE_MARGIN);
    ApprovalIsExact(grid, SOLAR_PARK, WITH_EMT, repr);
  }
}
