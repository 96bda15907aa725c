/** N-1 screening and the baseline-aware comparison of two N-1 studies. */
module Contingencies {
  import opened Prelude
  import opened Rounding
  import opened Text
  import opened GridModel
  import opened Stages

  datatype FailureItem =
    | NonConvergence(contingency: Contingency, error: string)
    | HardViolation(contingency: Contingency, violation: Violation)
  {
    function MarginPercent(): Option<real> {
      if NonConvergence? then None else Some(violation.marginPercent)
    }

    function FailureRank(): nat { if NonConvergence? then 3 else 2 }
  }

  // ---- signatures ----

  function Join(left: string, sep: char, right: string): string { left + [sep] + right }

  function ElementText(t: ElementType): string {
    match t case BusElement => "bus" case LineElement => "line" case TransformerElement => "transformer"
  }

  function ViolationText(t: ViolationType): string {
    match t
    case LowVoltage => "low_voltage"
    case HighVoltage => "high_voltage"
    case ThermalLoading => "thermal_loading"
    case AngleDifference => "angle_difference"
  }

  function RelationText(r: LimitRelation): string { match r case AtLeast => ">=" case AtMost => "<=" }

  function OutageText(t: OutageType): string { match t case LineOutage => "line" case TransformerOutage => "transformer" }

  function ContingencyKey(c: Contingency): string {
    Join(OutageText(c.elementType), ':', Str(c.elementIndex))
  }

  function FindingText(elementType: string, index: int, violationType: string, relation: string, limit: string): string {
    Join(elementType, ':', Join(Str(index), ':', Join(violationType, ':', Join(relation, ':', limit))))
  }

  /** The finding's part of a signature; `repr` prints a limit rounded to nine decimals. */
  function TextOf(v: Violation, repr: int -> string): string {
    FindingText(ElementText(v.elementType), v.elementIndex, ViolationText(v.violationType), RelationText(v.limitRelation),
      repr(Round9(v.limitValue)))
  }

  function Tail(x: FailureItem, repr: int -> string): string {
    if x.NonConvergence? then "non_convergence" else TextOf(x.violation, repr)
  }

  function Signature(item: FailureItem, repr: int -> string): string {
    Join(ContingencyKey(item.contingency), '|', Tail(item, repr))
  }

  function Signing(repr: int -> string): FailureItem -> string { (x: FailureItem) => Signature(x, repr) }

  /** The same identity as a tuple, the way the steady-state comparison keys its findings. */
  datatype FailureKey = FailureKey(outage: Contingency, finding: Option<ViolationKey>)

  function KeyOfFailure(item: FailureItem): FailureKey {
    FailureKey(item.contingency, if item.NonConvergence? then None else Some(KeyOf(item.violation)))
  }

  ghost predicate Injective(repr: int -> string) {
    forall m, n :: repr(m) == repr(n) ==> m == n
  }

  /** The vocabulary holds no separator and tells its words apart. */
  lemma Vocabulary()
    ensures forall t :: ':' !in ElementText(t)
    ensures forall t :: ':' !in ViolationText(t)
    ensures forall r :: ':' !in RelationText(r)
    ensures forall t :: ':' !in OutageText(t) && '|' !in OutageText(t)
    ensures forall s, t :: ElementText(s) == ElementText(t) ==> s == t
    ensures forall s, t :: ViolationText(s) == ViolationText(t) ==> s == t
    ensures forall s, t :: OutageText(s) == OutageText(t) ==> s == t
  {
    assert forall t :: |ElementText(t)| == match t case BusElement => 3 case LineElement => 4 case TransformerElement => 11;
    assert |ViolationText(LowVoltage)| == 11 && |ViolationText(HighVoltage)| == 12;
    assert |ViolationText(ThermalLoading)| == 15 && |ViolationText(AngleDifference)| == 16;
    assert forall t :: |OutageText(t)| == if t.LineOutage? then 4 else 11;
  }

  lemma RelationTextInjective(r: LimitRelation, s: LimitRelation)
    requires RelationText(r) == RelationText(s)
    ensures r == s
  {
    assert RelationText(r)[0] == RelationText(s)[0];
  }

  lemma ContingencyKeyInjective(c: Contingency, d: Contingency)
    requires ContingencyKey(c) == ContingencyKey(d)
    ensures c == d
  {
    Vocabulary();
    SplitFirst(OutageText(c.elementType), Str(c.elementIndex), OutageText(d.elementType), Str(d.elementIndex), ':');
    StrInjective(c.elementIndex, d.elementIndex);
  }

  /** On texts free of the separator a finding's text determines its parts ... */
  lemma FindingTextInjective(e: string, i: int, t: string, r: string, l: string, e': string, i': int, t': string, r': string, l': string)
    requires ':' !in e && ':' !in t && ':' !in r && ':' !in e' && ':' !in t' && ':' !in r'
    requires FindingText(e, i, t, r, l) == FindingText(e', i', t', r', l')
    ensures e == e' && i == i' && t == t' && r == r' && l == l'
  {
    var v3, w3 := Join(r, ':', l), Join(r', ':', l');
    var v2, w2 := Join(t, ':', v3), Join(t', ':', w3);
    SplitFirst(e, Join(Str(i), ':', v2), e', Join(Str(i'), ':', w2), ':');
    StrFree(i, ':');
    StrFree(i', ':');
    SplitFirst(Str(i), v2, Str(i'), w2, ':');
    StrInjective(i, i');
    SplitFirst(t, v3, t', w3, ':');
    SplitFirst(r, l, r', l', ':');
  }

  /** ... and on free text it need not: the inspector's vocabulary is what keeps signatures apart. */
  lemma SignatureCollides(limit: string)
    ensures FindingText("bus:3", 4, "low_voltage", ">=", limit) == FindingText("bus", 3, "4:low_voltage", ">=", limit)
  {
    var rest := Join(">=", ':', limit);
    assert Str(3) == "3" && Str(4) == "4";
    assert FindingText("bus:3", 4, "low_voltage", ">=", limit) == "bus:3:4:low_voltage:" + rest;
    assert FindingText("bus", 3, "4:low_voltage", ">=", limit) == "bus:3:4:low_voltage:" + rest;
  }

  lemma TextOfInjective(v: Violation, w: Violation, repr: int -> string)
    requires Injective(repr) && TextOf(v, repr) == TextOf(w, repr)
    ensures KeyOf(v) == KeyOf(w)
  {
    Vocabulary();
    FindingTextInjective(
      ElementText(v.elementType), v.elementIndex, ViolationText(v.violationType), RelationText(v.limitRelation), repr(Round9(v.limitValue)),
      ElementText(w.elementType), w.elementIndex, ViolationText(w.violationType), RelationText(w.limitRelation), repr(Round9(w.limitValue)));
    RelationTextInjective(v.limitRelation, w.limitRelation);
  }

  /** Two signatures agree exactly when outage and finding agree, for everything the solver and the inspector emit. */
  lemma SignatureInjective(x: FailureItem, y: FailureItem, repr: int -> string)
    requires Injective(repr)
    ensures Signature(x, repr) == Signature(y, repr) <==> KeyOfFailure(x) == KeyOfFailure(y)
  {
    if Signature(x, repr) == Signature(y, repr) {
      SignatureParts(x, y, repr);
      ContingencyKeyInjective(x.contingency, y.contingency);
      FindingHasColon(x, repr);
      FindingHasColon(y, repr);
      if x.HardViolation? && y.HardViolation? {
        TextOfInjective(x.violation, y.violation, repr);
      }
    }
  }

  lemma SignatureParts(x: FailureItem, y: FailureItem, repr: int -> string)
    requires Signature(x, repr) == Signature(y, repr)
    ensures ContingencyKey(x.contingency) == ContingencyKey(y.contingency) && Tail(x, repr) == Tail(y, repr)
  {
    Vocabulary();
    StrFree(x.contingency.elementIndex, '|');
    StrFree(y.contingency.elementIndex, '|');
    SplitFirst(ContingencyKey(x.contingency), Tail(x, repr), ContingencyKey(y.contingency), Tail(y, repr), '|');
  }

  // A non-convergence tail is free of the colon every finding carries.
  lemma FindingHasColon(x: FailureItem, repr: int -> string)
    ensures x.HardViolation? ==> ':' in Tail(x, repr)
    ensures ':' !in "non_convergence"
  {
  }

  // ---- one study ----

  datatype ContingencyResult = ContingencyResult(
    contingency: Contingency,
    status: Status,
    passed: bool,
    failureItems: seq<FailureItem>,
    hardCount: nat,
    borderlineCount: nat)

  function HardBefore(x: FailureItem, y: FailureItem): bool {
    FailureLe(y, x)
  }

  // `_failure_sort_key` on failure items: rank first, then margin (0 when absent).
  function FailureLe(x: FailureItem, y: FailureItem): bool {
    x.FailureRank() < y.FailureRank() ||
    (x.FailureRank() == y.FailureRank() && MarginOrZero(x) <= MarginOrZero(y))
  }

  function MarginOrZero(x: FailureItem): real {
    match x.MarginPercent() case Some(m) => m case None => 0.0
  }

  function HardFailureItems(c: Contingency, report: seq<Violation>): seq<FailureItem> {
    Sort(Map(Filter(report, IsHard), v => HardViolation(c, v)), HardBefore)
  }

  function RunOne(grid: Grid, connection: Option<Connection>, c: Contingency): (r: ContingencyResult)
    ensures r.passed <==> r.failureItems == []
    ensures r.passed <==> (grid.flow(connection, Some(c)).Converged? &&
      forall v | v in grid.flow(connection, Some(c)).emergency :: !v.severity.Hard?)
    ensures forall x | x in r.failureItems :: x.contingency == c
  {
    match grid.flow(connection, Some(c))
    case Diverged(error) =>
      ContingencyResult(c, Fail, false, [NonConvergence(c, error)], 0, 0)
    case Converged(_, report) =>
      var items := HardFailureItems(c, report);
      var hard := Filter(report, IsHard);
      assert hard == [] ==> forall v | v in report :: !v.severity.Hard?;
      assert hard != [] ==> hard[0] in report && hard[0].severity.Hard?;
      ContingencyResult(c,
        if items != [] then Fail else if |Filter(report, IsBorderline)| > 0 then BorderlineStatus else Pass,
        items == [], items, |Filter(report, IsHard)|, |Filter(report, IsBorderline)|)
  }

  datatype Study = Study(
    totalAvailable: nat,
    results: seq<ContingencyResult>,
    passedCount: nat,
    failedCount: nat,
    borderlineCount: nat,
    nonConvergedCount: nat,
    hardViolationCount: nat)

  predicate HasPassed(r: ContingencyResult) { r.passed }

  predicate HasFailed(r: ContingencyResult) { !r.passed }

  predicate IsBorderlineResult(r: ContingencyResult) { r.status.BorderlineStatus? }

  predicate DidNotConverge(r: ContingencyResult) { r.failureItems != [] && r.failureItems[0].NonConvergence? }

  function SumHard(results: seq<ContingencyResult>): nat {
    if results == [] then 0 else SumHard(results[..|results| - 1]) + results[|results| - 1].hardCount
  }

  // The connection, if any, can be attached.
  predicate Attachable(grid: Grid, connection: Option<Connection>) {
    connection.Some? ==> AttachError(grid, connection.value).None?
  }

  /** `ContingencyRunner.run`; an error of attaching the connection or of the seed power flow escapes as Err. */
  function RunStudy(grid: Grid, connection: Option<Connection>, maxContingencies: int): (r: Result<Study, string>)
    ensures r.Ok? <==> Attachable(grid, connection) && grid.flow(connection, None).Converged?
  {
    if !Attachable(grid, connection) then Err(AttachError(grid, connection.value).value)
    else match grid.flow(connection, None)
    case Diverged(error) => Err(error)
    case Converged(_, _) =>
      var available := grid.outages(connection);
      var results := Map(Take(available, maxContingencies), c => RunOne(grid, connection, c));
      Ok(Study(|available|, results,
        |Filter(results, HasPassed)|,
        |Filter(results, HasFailed)|,
        |Filter(results, IsBorderlineResult)|,
        |Filter(results, DidNotConverge)|,
        SumHard(results)))
  }

  function FailuresOf(results: seq<ContingencyResult>): seq<FailureItem> {
    if results == [] then [] else FailuresOf(results[..|results| - 1]) + results[|results| - 1].failureItems
  }

  lemma FailuresOfStep(results: seq<ContingencyResult>, k: nat)
    requires k < |results|
    ensures FailuresOf(results[..k + 1]) == FailuresOf(results[..k]) + results[k].failureItems
  {
    assert results[..k + 1][..k] == results[..k];
  }

  lemma {:induction false} FailuresOfMembers(results: seq<ContingencyResult>, x: FailureItem)
    ensures x in FailuresOf(results) <==> exists r | r in results :: x in r.failureItems
  {
    if results != [] {
      var k := |results| - 1;
      assert results == results[..k] + [results[k]];
      FailuresOfMembers(results[..k], x);
    }
  }

  lemma HardItemsAreHard(c: Contingency, report: seq<Violation>)
    ensures |HardFailureItems(c, report)| == |Filter(report, IsHard)|
    ensures forall x | x in HardFailureItems(c, report) :: x.HardViolation?
  {
  }

  /** The outage fails as `x`: its power flow diverges, or has this hard finding under the emergency limits. */
  predicate FailsAs(grid: Grid, connection: Option<Connection>, c: Contingency, x: FailureItem) {
    match grid.flow(connection, Some(c))
    case Diverged(error) => x == NonConvergence(c, error)
    case Converged(_, report) => x.HardViolation? && x.contingency == c && x.violation in report && x.violation.severity.Hard?
  }

  predicate WorseFirst(x: FailureItem, y: FailureItem) {
    x.HardViolation? && y.HardViolation? && x.violation.marginPercent >= y.violation.marginPercent
  }

  lemma HardItemMembers(c: Contingency, report: seq<Violation>, x: FailureItem)
    ensures x in HardFailureItems(c, report) <==>
      x.HardViolation? && x.contingency == c && x.violation in report && x.violation.severity.Hard?
  {
    var hard := Filter(report, IsHard);
    var items := Map(hard, v => HardViolation(c, v));
    if x in items {
      var i :| 0 <= i < |items| && items[i] == x;
      assert hard[i] in hard;
    }
    if x.HardViolation? && x.contingency == c && x.violation in hard {
      var i :| 0 <= i < |hard| && hard[i] == x.violation;
      assert items[i] == x;
    }
  }

  lemma HardItemsOrdered(c: Contingency, report: seq<Violation>)
    ensures Ordered(HardFailureItems(c, report), HardBefore)
  {
    SortOrdered(Map(Filter(report, IsHard), v => HardViolation(c, v)), HardBefore);
  }

  /** The failures of an outage are its non-convergence, or its hard findings under the emergency limits. */
  lemma RunOneFailures(grid: Grid, connection: Option<Connection>, c: Contingency, x: FailureItem)
    ensures x in RunOne(grid, connection, c).failureItems <==> FailsAs(grid, connection, c, x)
  {
    var flow := grid.flow(connection, Some(c));
    if flow.Converged? {
      HardItemMembers(c, flow.emergency, x);
    }
  }

  /** An outage lists its failures worst first: no later one has the greater margin. */
  lemma RunOneWorstFirst(grid: Grid, connection: Option<Connection>, c: Contingency, i: nat, j: nat)
    requires i < j < |RunOne(grid, connection, c).failureItems|
    ensures WorseFirst(RunOne(grid, connection, c).failureItems[i], RunOne(grid, connection, c).failureItems[j])
  {
    var items := RunOne(grid, connection, c).failureItems;
    var flow := grid.flow(connection, Some(c));
    if flow.Converged? {
      HardItemsOrdered(c, flow.emergency);
      HardItemMembers(c, flow.emergency, items[i]);
      HardItemMembers(c, flow.emergency, items[j]);
    }
  }

  /** An outage fails if it diverges or has a hard finding, is borderline if its findings are borderline only, and passes
      without findings; the counts are those of its emergency report. */
  lemma RunOneStatus(grid: Grid, connection: Option<Connection>, c: Contingency)
    ensures var r := RunOne(grid, connection, c);
      r.contingency == c &&
      match grid.flow(connection, Some(c))
      case Diverged(error) => r.status == Fail && r.hardCount == 0 && r.borderlineCount == 0
      case Converged(_, report) =>
        && r.hardCount == |Filter(report, IsHard)| && r.borderlineCount == |Filter(report, IsBorderline)|
        && (r.status == Fail <==> exists v | v in report :: v.severity.Hard?)
        && (r.status == BorderlineStatus <==> report != [] && forall v | v in report :: v.severity.Borderline?)
        && (r.status == Pass <==> report == [])
  {
    var flow := grid.flow(connection, Some(c));
    if flow.Converged? {
      HardItemsAreHard(c, flow.emergency);
      FilterNone(flow.emergency, IsHard);
      FilterNone(flow.emergency, IsBorderline);
      assert flow.emergency != [] ==> flow.emergency[0] in flow.emergency;
    }
  }

  lemma RunOneCounts(grid: Grid, connection: Option<Connection>, c: Contingency)
    ensures var r := RunOne(grid, connection, c);
      |r.failureItems| == r.hardCount + (if DidNotConverge(r) then 1 else 0)
  {
    var flow := grid.flow(connection, Some(c));
    if flow.Converged? {
      HardItemsAreHard(c, flow.emergency);
      var r := RunOne(grid, connection, c);
      assert r.failureItems != [] ==> r.failureItems[0] in r.failureItems;
    }
  }

  /** The summary counts account for every evaluated outage and every listed failure. */
  lemma {:induction false} StudyCounts(results: seq<ContingencyResult>, grid: Grid, connection: Option<Connection>)
    requires forall i | 0 <= i < |results| :: results[i] == RunOne(grid, connection, results[i].contingency)
    ensures |Filter(results, HasPassed)| + |Filter(results, HasFailed)| == |results|
    ensures |FailuresOf(results)| == SumHard(results) + |Filter(results, DidNotConverge)|
  {
    if results != [] {
      var front, last := results[..|results| - 1], results[|results| - 1];
      StudyCounts(front, grid, connection);
      RunOneCounts(grid, connection, last.contingency);
      assert last == RunOne(grid, connection, last.contingency);
    }
  }

  function Passing(grid: Grid, connection: Option<Connection>): Contingency -> bool {
    c => var flow := grid.flow(connection, Some(c)); flow.Converged? && forall v | v in flow.emergency :: !v.severity.Hard?
  }

  function Failing(grid: Grid, connection: Option<Connection>): Contingency -> bool {
    c => var flow := grid.flow(connection, Some(c)); flow.Diverged? || exists v | v in flow.emergency :: v.severity.Hard?
  }

  function Bordering(grid: Grid, connection: Option<Connection>): Contingency -> bool {
    c => var flow := grid.flow(connection, Some(c));
      flow.Converged? && flow.emergency != [] && forall v | v in flow.emergency :: v.severity.Borderline?
  }

  function Diverging(grid: Grid, connection: Option<Connection>): Contingency -> bool {
    c => grid.flow(connection, Some(c)).Diverged?
  }

  /** A study evaluates the first `maxContingencies` outages (all when negative) in order, and its summary counts those
      that pass, fail, are borderline and diverge; the failures it lists are the hard findings and the divergences. */
  lemma StudySummary(grid: Grid, connection: Option<Connection>, maxContingencies: int)
    requires Attachable(grid, connection) && grid.flow(connection, None).Converged?
    ensures var s := RunStudy(grid, connection, maxContingencies).value; var selected := Take(grid.outages(connection), maxContingencies);
      && |s.results| == |selected| && s.totalAvailable == |grid.outages(connection)|
      && (forall i | 0 <= i < |selected| :: s.results[i] == RunOne(grid, connection, selected[i]))
      && s.passedCount == |Filter(selected, Passing(grid, connection))|
      && s.failedCount == |Filter(selected, Failing(grid, connection))|
      && s.borderlineCount == |Filter(selected, Bordering(grid, connection))|
      && s.nonConvergedCount == |Filter(selected, Diverging(grid, connection))|
      && s.passedCount + s.failedCount == |selected|
      && |FailuresOf(s.results)| == s.hardViolationCount + s.nonConvergedCount
  {
    var s := RunStudy(grid, connection, maxContingencies).value;
    var selected := Take(grid.outages(connection), maxContingencies);
    StudyCounts(s.results, grid, connection);
    OutageCounts(grid, connection, selected);
  }

  lemma OutageCounts(grid: Grid, connection: Option<Connection>, selected: seq<Contingency>)
    ensures var results := Map(selected, c => RunOne(grid, connection, c));
      && |Filter(results, HasPassed)| == |Filter(selected, Passing(grid, connection))|
      && |Filter(results, HasFailed)| == |Filter(selected, Failing(grid, connection))|
      && |Filter(results, IsBorderlineResult)| == |Filter(selected, Bordering(grid, connection))|
      && |Filter(results, DidNotConverge)| == |Filter(selected, Diverging(grid, connection))|
  {
    var run := c => RunOne(grid, connection, c);
    forall c ensures HasPassed(run(c)) == Passing(grid, connection)(c) && HasFailed(run(c)) == Failing(grid, connection)(c)
      && IsBorderlineResult(run(c)) == Bordering(grid, connection)(c) && DidNotConverge(run(c)) == Diverging(grid, connection)(c)
    {
      RunOneVerdicts(grid, connection, c);
    }
    FilterMapCount(selected, run, HasPassed, Passing(grid, connection));
    FilterMapCount(selected, run, HasFailed, Failing(grid, connection));
    FilterMapCount(selected, run, IsBorderlineResult, Bordering(grid, connection));
    FilterMapCount(selected, run, DidNotConverge, Diverging(grid, connection));
  }

  lemma RunOneVerdicts(grid: Grid, connection: Option<Connection>, c: Contingency)
    ensures var r := RunOne(grid, connection, c);
      && HasPassed(r) == Passing(grid, connection)(c) && HasFailed(r) == Failing(grid, connection)(c)
      && IsBorderlineResult(r) == Bordering(grid, connection)(c) && DidNotConverge(r) == Diverging(grid, connection)(c)
  {
    RunOneStatus(grid, connection, c);
    var r := RunOne(grid, connection, c);
    if r.failureItems != [] {
      RunOneFailures(grid, connection, c, r.failureItems[0]);
      assert r.failureItems[0] in r.failureItems;
    }
  }

  // ---- two studies ----

  datatype FailureChangeKind = NewContingencyFailure | MaterialWorsening

  datatype FailureChange = FailureChange(
    kind: FailureChangeKind,
    post: FailureItem,
    baseline: Option<FailureItem>,
    marginDelta: Option<real>)

  type BySignature = map<string, FailureItem>

  function MarginDelta(baseline: FailureItem, post: FailureItem): Option<real> {
    if baseline.MarginPercent().None? || post.MarginPercent().None? then None
    else Some(post.MarginPercent().value - baseline.MarginPercent().value)
  }

  predicate IsNew(baseline: BySignature, post: FailureItem, sign: FailureItem -> string) {
    sign(post) !in baseline
  }

  predicate IsWorse(baseline: BySignature, post: FailureItem, threshold: real, sign: FailureItem -> string) {
    var s := sign(post);
    s in baseline && var delta := MarginDelta(baseline[s], post); delta.Some? && delta.value > threshold
  }

  function Describe(baseline: BySignature, post: FailureItem, sign: FailureItem -> string): FailureChange {
    var s := sign(post);
    if s !in baseline then FailureChange(NewContingencyFailure, post, None, None)
    else FailureChange(MaterialWorsening, post, Some(baseline[s]), MarginDelta(baseline[s], post))
  }

  // Comparison entries carry no margin of their own, so they are ordered by failure rank alone.
  function ChangeBefore(x: FailureChange, y: FailureChange): bool {
    y.post.FailureRank() <= x.post.FailureRank()
  }

  datatype Comparison = Comparison(
    failures: seq<FailureChange>,
    worsenings: seq<FailureChange>,
    newCount: nat,
    worseningCount: nat,
    failureCount: nat,
    failOnWorsening: bool)

  function Blames(base: BySignature, threshold: real, failOnWorsening: bool, sign: FailureItem -> string): FailureItem -> bool {
    x => IsNew(base, x, sign) || (failOnWorsening && IsWorse(base, x, threshold, sign))
  }

  function Worsens(base: BySignature, threshold: real, sign: FailureItem -> string): FailureItem -> bool {
    x => IsWorse(base, x, threshold, sign)
  }

  function Describing(base: BySignature, sign: FailureItem -> string): FailureItem -> FailureChange {
    x => Describe(base, x, sign)
  }

  predicate IsNewChange(c: FailureChange) { c.kind.NewContingencyFailure? }

  /** What `compare_contingency_studies` computes from the two lists of failure items. */
  function Compare(baseline: seq<FailureItem>, posts: seq<FailureItem>, threshold: real, failOnWorsening: bool, sign: FailureItem -> string): Comparison {
    var base := LastBy(baseline, sign);
    var failures := Sort(Map(Filter(posts, Blames(base, threshold, failOnWorsening, sign)), Describing(base, sign)), ChangeBefore);
    var worsenings := Sort(Map(Filter(posts, Worsens(base, threshold, sign)), Describing(base, sign)), ChangeBefore);
    Comparison(failures, worsenings, |Filter(failures, IsNewChange)|, |worsenings|, |failures|, failOnWorsening)
  }

  /** The inner loop over one outage's failure items. */
  method CompareItems(base: BySignature, items: seq<FailureItem>, threshold: real, failOnWorsening: bool, sign: FailureItem -> string)
    returns (projectFailures: seq<FailureChange>, materialWorsenings: seq<FailureChange>)
    ensures projectFailures == Map(Filter(items, Blames(base, threshold, failOnWorsening, sign)), Describing(base, sign))
    ensures materialWorsenings == Map(Filter(items, Worsens(base, threshold, sign)), Describing(base, sign))
  {
    ghost var blames, worsens := Blames(base, threshold, failOnWorsening, sign), Worsens(base, threshold, sign);
    ghost var describe := Describing(base, sign);
    projectFailures, materialWorsenings := [], [];
    for j := 0 to |items|
      invariant projectFailures == Map(Filter(items[..j], blames), describe)
      invariant materialWorsenings == Map(Filter(items[..j], worsens), describe)
    {
      var postFailure := items[j];
      assert items[..j + 1] == items[..j] + [postFailure];
      MapFilterSnoc(items[..j], postFailure, blames, describe);
      MapFilterSnoc(items[..j], postFailure, worsens, describe);
      if sign(postFailure) !in base {
        projectFailures := projectFailures + [FailureChange(NewContingencyFailure, postFailure, None, None)];
      } else {
        var baselineFailure := base[sign(postFailure)];
        var delta := MarginDelta(baselineFailure, postFailure);
        if delta.Some? && delta.value > threshold {
          var item := FailureChange(MaterialWorsening, postFailure, Some(baselineFailure), delta);
          materialWorsenings := materialWorsenings + [item];
          if failOnWorsening {
            projectFailures := projectFailures + [item];
          }
        }
      }
    }
    assert items[..|items|] == items;
  }

  method CompareContingencyStudies(baseline: Study, post: Study, threshold: real, failOnWorsening: bool, sign: FailureItem -> string)
    returns (r: Comparison)
    ensures r == Compare(FailuresOf(baseline.results), FailuresOf(post.results), threshold, failOnWorsening, sign)
  {
    var base := LastBy(FailuresOf(baseline.results), sign);
    ghost var blames, worsens := Blames(base, threshold, failOnWorsening, sign), Worsens(base, threshold, sign);
    ghost var describe := Describing(base, sign);
    var projectFailures, materialWorsenings := [], [];
    for i := 0 to |post.results|
      invariant projectFailures == Map(Filter(FailuresOf(post.results[..i]), blames), describe)
      invariant materialWorsenings == Map(Filter(FailuresOf(post.results[..i]), worsens), describe)
    {
      ghost var done, items := FailuresOf(post.results[..i]), post.results[i].failureItems;
      FailuresOfStep(post.results, i);
      MapFilterAppend(done, items, blames, describe);
      MapFilterAppend(done, items, worsens, describe);
      var failures, worsenings := CompareItems(base, post.results[i].failureItems, threshold, failOnWorsening, sign);
      projectFailures := projectFailures + failures;
      materialWorsenings := materialWorsenings + worsenings;
    }
    assert post.results[..|post.results|] == post.results;
    projectFailures := Sort(projectFailures, ChangeBefore);
    materialWorsenings := Sort(materialWorsenings, ChangeBefore);
    r := Comparison(projectFailures, materialWorsenings, |Filter(projectFailures, IsNewChange)|,
      |materialWorsenings|, |projectFailures|, failOnWorsening);
  }

  // ---- laws of the comparison ----

  /** A baseline entry with the same outage and finding exists, and the last such entry is not
      exceeded by more than the threshold (or has no margin to exceed). */
  ghost predicate Excused(baseline: seq<FailureItem>, post: FailureItem, threshold: real) {
    exists i: nat :: IsLastWith(baseline, KeyOfFailure, KeyOfFailure(post), i) && WithinLast(baseline[i], post, threshold)
  }

  /** The failure's margin exceeds the earlier one's by no more than the threshold; a diverged power flow has no margin. */
  predicate WithinLast(last: FailureItem, x: FailureItem, threshold: real) {
    last.NonConvergence? || x.NonConvergence? || x.violation.marginPercent - last.violation.marginPercent <= threshold
  }

  ghost predicate Preexisting(baseline: seq<FailureItem>, post: FailureItem) {
    exists b | b in baseline :: KeyOfFailure(b) == KeyOfFailure(post)
  }

  /** The string-keyed join finds what a join keyed on outage and finding would find. */
  lemma JoinBySignatureIsJoinByKey(baseline: seq<FailureItem>, post: FailureItem, threshold: real, repr: int -> string)
    requires Injective(repr)
    ensures var sign := Signing(repr); var base := LastBy(baseline, sign);
      && (IsNew(base, post, sign) <==> !Preexisting(baseline, post))
      && (IsNew(base, post, sign) || IsWorse(base, post, threshold, sign) <==> !Excused(baseline, post, threshold))
  {
    var sign := Signing(repr);
    forall b | b in baseline ensures sign(b) == sign(post) <==> KeyOfFailure(b) == KeyOfFailure(post) {
      SignatureInjective(b, post, repr);
    }
    JoinByEquivalentKey(baseline, post, threshold, sign);
  }

  lemma JoinByEquivalentKey(baseline: seq<FailureItem>, post: FailureItem, threshold: real, sign: FailureItem -> string)
    requires forall b | b in baseline :: sign(b) == sign(post) <==> KeyOfFailure(b) == KeyOfFailure(post)
    ensures var base := LastBy(baseline, sign);
      && (IsNew(base, post, sign) <==> !Preexisting(baseline, post))
      && (IsNew(base, post, sign) || IsWorse(base, post, threshold, sign) <==> !Excused(baseline, post, threshold))
  {
    LastByLookup(baseline, sign, sign(post));
    if sign(post) in LastBy(baseline, sign) {
      var i: nat :| IsLastWith(baseline, sign, sign(post), i) && LastBy(baseline, sign)[sign(post)] == baseline[i];
      assert IsLastWith(baseline, KeyOfFailure, KeyOfFailure(post), i);
      assert forall j: nat | IsLastWith(baseline, KeyOfFailure, KeyOfFailure(post), j) :: j == i;
    }
  }

  predicate IsTolerated(base: BySignature, post: FailureItem, threshold: real, sign: FailureItem -> string) {
    !IsNew(base, post, sign) && !IsWorse(base, post, threshold, sign)
  }

  function Tolerates(base: BySignature, threshold: real, sign: FailureItem -> string): FailureItem -> bool {
    x => IsTolerated(base, x, threshold, sign)
  }

  lemma {:induction false} PartitionCounts(base: BySignature, posts: seq<FailureItem>, threshold: real, flag: bool, sign: FailureItem -> string)
    ensures |Filter(posts, Blames(base, threshold, false, sign))| + |Filter(posts, Worsens(base, threshold, sign))|
      + |Filter(posts, Tolerates(base, threshold, sign))| == |posts|
    ensures |Filter(posts, Blames(base, threshold, flag, sign))| == |Filter(posts, Blames(base, threshold, false, sign))|
      + (if flag then |Filter(posts, Worsens(base, threshold, sign))| else 0)
  {
    if posts != [] {
      PartitionCounts(base, posts[..|posts| - 1], threshold, flag, sign);
    }
  }

  lemma NewChanges(base: BySignature, posts: seq<FailureItem>, threshold: real, flag: bool, sign: FailureItem -> string)
    ensures |Filter(Map(Filter(posts, Blames(base, threshold, flag, sign)), Describing(base, sign)), IsNewChange)|
      == |Filter(posts, Blames(base, threshold, false, sign))|
  {
    var blames, blamesNew := Blames(base, threshold, flag, sign), Blames(base, threshold, false, sign);
    FilterMapCount(Filter(posts, blames), Describing(base, sign), IsNewChange, blamesNew);
    FilterFilter(posts, blames, blamesNew, blamesNew);
  }

  /** Every post-connection failure is exactly one of new, worsened, tolerated; the counts add up, and a
      worsening is blamed on the project exactly under the flag. */
  lemma ComparePartition(baseline: seq<FailureItem>, posts: seq<FailureItem>, threshold: real, flag: bool, sign: FailureItem -> string)
    ensures var r := Compare(baseline, posts, threshold, flag, sign);
      && r.newCount + r.worseningCount + |Filter(posts, Tolerates(LastBy(baseline, sign), threshold, sign))| == |posts|
      && r.failureCount == r.newCount + (if flag then r.worseningCount else 0)
  {
    var base := LastBy(baseline, sign);
    var blamed := Map(Filter(posts, Blames(base, threshold, flag, sign)), Describing(base, sign));
    PartitionCounts(base, posts, threshold, flag, sign);
    NewChanges(base, posts, threshold, flag, sign);
    SortFilterCount(blamed, ChangeBefore, IsNewChange);
  }

  /** A change is reported exactly for the blamed items, and none is reported exactly when none is blamed. */
  lemma CompareBlamesExactly(baseline: seq<FailureItem>, posts: seq<FailureItem>, threshold: real, flag: bool, sign: FailureItem -> string, x: FailureItem)
    ensures var r := Compare(baseline, posts, threshold, flag, sign); var base := LastBy(baseline, sign);
      (x in posts && (IsNew(base, x, sign) || (flag && IsWorse(base, x, threshold, sign)))) <==> Describe(base, x, sign) in r.failures
  {
    var base := LastBy(baseline, sign);
    var kept := Filter(posts, Blames(base, threshold, flag, sign));
    var changes := Map(kept, Describing(base, sign));
    if x in kept {
      var i :| 0 <= i < |kept| && kept[i] == x;
      assert changes[i] == Describe(base, x, sign);
    }
    if Describe(base, x, sign) in changes {
      var i :| 0 <= i < |changes| && changes[i] == Describe(base, x, sign);
      assert kept[i] == x;
    }
  }

  lemma CompareFailureCount(baseline: seq<FailureItem>, posts: seq<FailureItem>, threshold: real, flag: bool, sign: FailureItem -> string)
    ensures var base := LastBy(baseline, sign);
      Compare(baseline, posts, threshold, flag, sign).failureCount == 0 <==>
        forall x | x in posts :: !IsNew(base, x, sign) && !(flag && IsWorse(base, x, threshold, sign))
  {
    var base := LastBy(baseline, sign);
    var kept := Filter(posts, Blames(base, threshold, flag, sign));
    assert Compare(baseline, posts, threshold, flag, sign).failureCount == |kept|;
    assert |kept| > 0 ==> kept[0] in kept;
  }

  /** What an entry says: a failure whose signature has no baseline failure is new; any other is compared with the last
      baseline failure of its signature, by the difference of their margins if both have one. */
  lemma DescribeMeaning(baseline: seq<FailureItem>, x: FailureItem, sign: FailureItem -> string)
    ensures var entry := Describe(LastBy(baseline, sign), x, sign);
      && entry.post == x
      && (entry.kind.NewContingencyFailure? <==> forall b | b in baseline :: sign(b) != sign(x))
      && (entry.kind.NewContingencyFailure? ==> entry.baseline.None? && entry.marginDelta.None?)
      && (entry.kind.MaterialWorsening? ==> exists i: nat :: IsLastWith(baseline, sign, sign(x), i) && ComparedWith(entry, x, baseline[i]))
  {
    LastByLookup(baseline, sign, sign(x));
    if sign(x) in LastBy(baseline, sign) {
      var i: nat :| IsLastWith(baseline, sign, sign(x), i) && LastBy(baseline, sign)[sign(x)] == baseline[i];
      assert ComparedWith(Describe(LastBy(baseline, sign), x, sign), x, baseline[i]);
    }
  }

  predicate ComparedWith(entry: FailureChange, x: FailureItem, last: FailureItem) {
    entry.baseline == Some(last) && entry.marginDelta ==
      if x.NonConvergence? || last.NonConvergence? then None else Some(x.violation.marginPercent - last.violation.marginPercent)
  }

  lemma CompareListsWorsenings(baseline: seq<FailureItem>, posts: seq<FailureItem>, threshold: real, flag: bool, sign: FailureItem -> string, x: FailureItem)
    ensures var r := Compare(baseline, posts, threshold, flag, sign); var base := LastBy(baseline, sign);
      (x in posts && IsWorse(base, x, threshold, sign)) <==> Describe(base, x, sign) in r.worsenings
  {
    var base := LastBy(baseline, sign);
    var kept := Filter(posts, Worsens(base, threshold, sign));
    var changes := Map(kept, Describing(base, sign));
    if x in kept {
      var i :| 0 <= i < |kept| && kept[i] == x;
      assert changes[i] == Describe(base, x, sign);
    }
    if Describe(base, x, sign) in changes {
      var i :| 0 <= i < |changes| && changes[i] == Describe(base, x, sign);
      assert kept[i] == x;
    }
  }

  /** With a threshold that is not negative, a finding whose margin did not grow over the last baseline failure of its
      signature is listed nowhere. */
  lemma NotGrownNotListed(baseline: seq<FailureItem>, posts: seq<FailureItem>, threshold: real, flag: bool, sign: FailureItem -> string,
                          x: FailureItem, i: nat)
    requires threshold >= 0.0 && IsLastWith(baseline, sign, sign(x), i)
    requires x.HardViolation? && baseline[i].HardViolation? && x.violation.marginPercent <= baseline[i].violation.marginPercent
    ensures var r := Compare(baseline, posts, threshold, flag, sign); var entry := Describe(LastBy(baseline, sign), x, sign);
      entry !in r.failures && entry !in r.worsenings
  {
    LastByLookup(baseline, sign, sign(x));
    var j: nat :| IsLastWith(baseline, sign, sign(x), j) && LastBy(baseline, sign)[sign(x)] == baseline[j];
    assert j == i;
    CompareBlamesExactly(baseline, posts, threshold, flag, sign, x);
    CompareListsWorsenings(baseline, posts, threshold, flag, sign, x);
  }

  /** Non-convergence is listed before limit violations. */
  lemma CompareListsNonConvergenceFirst(baseline: seq<FailureItem>, posts: seq<FailureItem>, threshold: real, flag: bool, sign: FailureItem -> string, i: nat, j: nat)
    requires i < j < |Compare(baseline, posts, threshold, flag, sign).failures|
    ensures var failures := Compare(baseline, posts, threshold, flag, sign).failures;
      failures[j].post.NonConvergence? ==> failures[i].post.NonConvergence?
  {
    var base := LastBy(baseline, sign);
    SortOrdered(Map(Filter(posts, Blames(base, threshold, flag, sign)), Describing(base, sign)), ChangeBefore);
  }

  /** The failure exceeds the last one with its signature by more than the threshold. */
  ghost predicate ExceedsLast(items: seq<FailureItem>, threshold: real, sign: FailureItem -> string, x: FailureItem) {
    exists j: nat :: IsLastWith(items, sign, sign(x), j) && !WithinLast(items[j], x, threshold)
  }

  lemma OwnEntry(items: seq<FailureItem>, threshold: real, sign: FailureItem -> string, x: FailureItem)
    requires x in items
    ensures !IsNew(LastBy(items, sign), x, sign)
    ensures IsWorse(LastBy(items, sign), x, threshold, sign) <==> ExceedsLast(items, threshold, sign, x)
  {
    LastByLookup(items, sign, sign(x));
    var j: nat :| IsLastWith(items, sign, sign(x), j) && LastBy(items, sign)[sign(x)] == items[j];
    assert forall k: nat | IsLastWith(items, sign, sign(x), k) :: k == j;
  }

  ghost predicate NoneExceedsLast(items: seq<FailureItem>, threshold: real, sign: FailureItem -> string) {
    forall x | x in items :: !ExceedsLast(items, threshold, sign, x)
  }

  lemma CompareWorsenings(baseline: seq<FailureItem>, posts: seq<FailureItem>, threshold: real, flag: bool, sign: FailureItem -> string)
    ensures Compare(baseline, posts, threshold, flag, sign).worsenings == [] <==>
      forall x | x in posts :: !IsWorse(LastBy(baseline, sign), x, threshold, sign)
  {
    FilterNone(posts, Worsens(LastBy(baseline, sign), threshold, sign));
  }

  /** A study compared with itself blames nothing new, and finds no worsening exactly when no failure exceeds the last
      one with its signature by more than the threshold. */
  lemma SelfComparisonExact(items: seq<FailureItem>, threshold: real, flag: bool, sign: FailureItem -> string)
    ensures Compare(items, items, threshold, flag, sign).worsenings == [] <==> NoneExceedsLast(items, threshold, sign)
    ensures Compare(items, items, threshold, flag, sign).failureCount == 0 <==> (flag ==> NoneExceedsLast(items, threshold, sign))
  {
    var base := LastBy(items, sign);
    forall x | x in items ensures
      !IsNew(base, x, sign) && (IsWorse(base, x, threshold, sign) <==> ExceedsLast(items, threshold, sign, x))
    {
      OwnEntry(items, threshold, sign, x);
    }
    CompareWorsenings(items, items, threshold, flag, sign);
    CompareFailureCount(items, items, threshold, flag, sign);
  }

  /** Two findings of one outage on an element whose index did not parse are such a case: they share a signature, are
      listed worst first, and the first is then measured against the second. */
  lemma RepeatedSignatureBlamesItself(c: Contingency, repr: int -> string)
    ensures var mild := Violation(BusElement, -1, LowVoltage, Hard, AtLeast, 0.9, 1.0);
      var items := [HardViolation(c, mild.(marginPercent := 8.0)), HardViolation(c, mild)];
      Compare(items, items, 2.0, true, Signing(repr)).failureCount > 0
  {
    var mild := Violation(BusElement, -1, LowVoltage, Hard, AtLeast, 0.9, 1.0);
    var items := [HardViolation(c, mild.(marginPercent := 8.0)), HardViolation(c, mild)];
    var sign := Signing(repr);
    assert IsLastWith(items, sign, sign(items[0]), 1) && !WithinLast(items[1], items[0], 2.0);
    assert items[0] in items && ExceedsLast(items, 2.0, sign, items[0]);
    SelfComparisonExact(items, 2.0, true, sign);
  }

  /** A study compared with itself blames nothing when signatures are distinct and the threshold is not negative. */
  lemma CompareWithSelf(items: seq<FailureItem>, threshold: real, flag: bool, sign: FailureItem -> string)
    requires forall i, j | 0 <= i < j < |items| :: sign(items[i]) != sign(items[j])
    requires threshold >= 0.0
    ensures var r := Compare(items, items, threshold, flag, sign);
      r.failures == [] && r.worsenings == []
  {
    var base := LastBy(items, sign);
    forall x | x in items ensures !IsNew(base, x, sign) && !IsWorse(base, x, threshold, sign) {
      LastByDistinct(items, sign, x);
    }
    FilterNone(items, Blames(base, threshold, flag, sign));
    FilterNone(items, Worsens(base, threshold, sign));
  }

  /** Raising the threshold only removes entries, counted with multiplicity. */
  lemma CompareThresholdMonotone(baseline: seq<FailureItem>, posts: seq<FailureItem>, low: real, high: real, flag: bool, sign: FailureItem -> string)
    requires low <= high
    ensures var loose, strict := Compare(baseline, posts, high, flag, sign), Compare(baseline, posts, low, flag, sign);
      && multiset(loose.failures) <= multiset(strict.failures)
      && multiset(loose.worsenings) <= multiset(strict.worsenings)
      && loose.newCount == strict.newCount
  {
    var base := LastBy(baseline, sign);
    MapFilterMonotone(posts, Blames(base, high, flag, sign), Blames(base, low, flag, sign), Describing(base, sign));
    MapFilterMonotone(posts, Worsens(base, high, sign), Worsens(base, low, sign), Describing(base, sign));
    ComparePartition(baseline, posts, low, flag, sign);
    ComparePartition(baseline, posts, high, flag, sign);
    NewAtAnyThreshold(base, posts, low, high, sign);
    NewChanges(base, posts, low, flag, sign);
    NewChanges(base, posts, high, flag, sign);
    SortFilterCount(Map(Filter(posts, Blames(base, low, flag, sign)), Describing(base, sign)), ChangeBefore, IsNewChange);
    SortFilterCount(Map(Filter(posts, Blames(base, high, flag, sign)), Describing(base, sign)), ChangeBefore, IsNewChange);
  }

  lemma NewAtAnyThreshold(base: BySignature, posts: seq<FailureItem>, low: real, high: real, sign: FailureItem -> string)
    ensures Filter(posts, Blames(base, low, false, sign)) == Filter(posts, Blames(base, high, false, sign))
  {
    FilterCong(posts, Blames(base, low, false, sign), Blames(base, high, false, sign));
  }

  const NEW_FAILURES := "n1_project_new_failures"
  const PROJECT_WORSENING := "n1_project_material_worsening"
  const WORSENING_OBSERVED := "n1_material_worsening_observed"
  const NO_FAILURES := "n1_no_project_caused_failures"

  function ContingencyStageReport(comparison: Comparison): (r: Stage)
    ensures r.status.Fail? <==> comparison.failureCount > 0
    ensures r.status.Fail? || r.status.Pass?
    ensures r.name == F2Contingency && r.passed == Some(!r.status.Fail?)
  {
    var codes :=
      (if comparison.newCount > 0 then [NEW_FAILURES] else []) +
      (if comparison.worseningCount == 0 then []
       else if comparison.failOnWorsening then [PROJECT_WORSENING]
       else [WORSENING_OBSERVED]);
    Stage(F2Contingency,
      if comparison.failureCount > 0 then Fail else Pass,
      Some(comparison.failureCount == 0),
      if codes == [] then [NO_FAILURES] else codes)
  }

  /** The reasons of the N-1 stage: new failures, worsenings (blamed or merely observed), or that there are none. */
  lemma ContingencyStageCodes(comparison: Comparison)
    ensures var codes := ContingencyStageReport(comparison).reasonCodes;
      && (NEW_FAILURES in codes <==> comparison.newCount > 0)
      && (PROJECT_WORSENING in codes <==> comparison.worseningCount > 0 && comparison.failOnWorsening)
      && (WORSENING_OBSERVED in codes <==> comparison.worseningCount > 0 && !comparison.failOnWorsening)
      && (NO_FAILURES in codes <==> comparison.newCount == comparison.worseningCount == 0)
  {
    assert |NEW_FAILURES| == 23 && |PROJECT_WORSENING| == 29 && |WORSENING_OBSERVED| == 30 && |NO_FAILURES| == 29;
    assert PROJECT_WORSENING[3] == 'p' && NO_FAILURES[3] == 'n';
  }

  // ---- the comparison read off the network ----

  function StudyFailures(grid: Grid, connection: Option<Connection>, maxContingencies: int): seq<FailureItem> {
    FailuresOf(Map(Take(grid.outages(connection), maxContingencies), o => RunOne(grid, connection, o)))
  }

  /** The failures of a study are those of the outages it evaluates. */
  lemma StudyFailuresMeaning(grid: Grid, connection: Option<Connection>, maxContingencies: int, x: FailureItem)
    ensures x in StudyFailures(grid, connection, maxContingencies) <==>
      x.contingency in Take(grid.outages(connection), maxContingencies) && FailsAs(grid, connection, x.contingency, x)
  {
    var selected := Take(grid.outages(connection), maxContingencies);
    var results := Map(selected, o => RunOne(grid, connection, o));
    FailuresOfMembers(results, x);
    RunOneFailures(grid, connection, x.contingency, x);
    if x.contingency in selected && FailsAs(grid, connection, x.contingency, x) {
      var i :| 0 <= i < |selected| && selected[i] == x.contingency;
      assert results[i] in results;
    }
    if r :| r in results && x in r.failureItems {
      var i :| 0 <= i < |results| && results[i] == r;
      assert x.contingency == selected[i];
    }
  }

  /** The same outage failed the same way without the project: it diverged too, or had a hard finding with this key. */
  ghost predicate FailedBefore(grid: Grid, maxContingencies: int, x: FailureItem) {
    x.contingency in Take(grid.outages(None), maxContingencies) &&
    match grid.flow(None, Some(x.contingency))
    case Diverged(_) => x.NonConvergence?
    case Converged(_, report) => x.HardViolation? && exists v | v in report :: v.severity.Hard? && KeyOf(v) == KeyOf(x.violation)
  }

  lemma PreexistingIsFailedBefore(grid: Grid, maxContingencies: int, x: FailureItem)
    ensures Preexisting(StudyFailures(grid, None, maxContingencies), x) <==> FailedBefore(grid, maxContingencies, x)
  {
    var baseline := StudyFailures(grid, None, maxContingencies);
    if b :| b in baseline && KeyOfFailure(b) == KeyOfFailure(x) {
      StudyFailuresMeaning(grid, None, maxContingencies, b);
    }
    if FailedBefore(grid, maxContingencies, x) {
      var flow := grid.flow(None, Some(x.contingency));
      var b: FailureItem;
      if flow.Diverged? {
        b := NonConvergence(x.contingency, flow.error);
      } else {
        var v :| v in flow.emergency && v.severity.Hard? && KeyOf(v) == KeyOf(x.violation);
        b := HardViolation(x.contingency, v);
      }
      StudyFailuresMeaning(grid, None, maxContingencies, b);
    }
  }

  /** The failure was there before the project; when worsening counts too, it does not exceed the last baseline failure
      with its outage and finding by more than the threshold. */
  ghost predicate Pardoned(grid: Grid, maxContingencies: int, threshold: real, failOnWorsening: bool, x: FailureItem) {
    FailedBefore(grid, maxContingencies, x)
    && (failOnWorsening ==> Excused(StudyFailures(grid, None, maxContingencies), x, threshold))
  }

  /** Every way in which an evaluated outage fails with the project is pardoned. */
  ghost predicate NoProjectFailure(grid: Grid, c: Connection, maxContingencies: int, threshold: real, failOnWorsening: bool) {
    forall k, x | k in Take(grid.outages(Some(c)), maxContingencies) && FailsAs(grid, Some(c), k, x) ::
      Pardoned(grid, maxContingencies, threshold, failOnWorsening, x)
  }

  lemma BlamedIsNotPardoned(grid: Grid, maxContingencies: int, threshold: real, flag: bool, repr: int -> string, x: FailureItem)
    requires Injective(repr)
    ensures var sign := Signing(repr); var base := LastBy(StudyFailures(grid, None, maxContingencies), sign);
      (IsNew(base, x, sign) || (flag && IsWorse(base, x, threshold, sign))) <==> !Pardoned(grid, maxContingencies, threshold, flag, x)
  {
    JoinBySignatureIsJoinByKey(StudyFailures(grid, None, maxContingencies), x, threshold, repr);
    PreexistingIsFailedBefore(grid, maxContingencies, x);
  }

  /** The comparison counts no failure exactly when the project is to blame for no outage. */
  lemma NoFailureCounted(grid: Grid, c: Connection, maxContingencies: int, threshold: real, failOnWorsening: bool, repr: int -> string)
    requires Injective(repr)
    ensures Compare(StudyFailures(grid, None, maxContingencies), StudyFailures(grid, Some(c), maxContingencies),
        threshold, failOnWorsening, Signing(repr)).failureCount == 0
      <==> NoProjectFailure(grid, c, maxContingencies, threshold, failOnWorsening)
  {
    var baseline, posts := StudyFailures(grid, None, maxContingencies), StudyFailures(grid, Some(c), maxContingencies);
    CompareFailureCount(baseline, posts, threshold, failOnWorsening, Signing(repr));
    forall x | x in posts ensures
      (IsNew(LastBy(baseline, Signing(repr)), x, Signing(repr)) || (failOnWorsening && IsWorse(LastBy(baseline, Signing(repr)), x, threshold, Signing(repr))))
      <==> !Pardoned(grid, maxContingencies, threshold, failOnWorsening, x)
    {
      BlamedIsNotPardoned(grid, maxContingencies, threshold, failOnWorsening, repr, x);
    }
    PardonedPosts(grid, c, maxContingencies, threshold, failOnWorsening);
  }

  lemma PardonedPosts(grid: Grid, c: Connection, maxContingencies: int, threshold: real, failOnWorsening: bool)
    ensures NoProjectFailure(grid, c, maxContingencies, threshold, failOnWorsening) <==>
      forall x | x in StudyFailures(grid, Some(c), maxContingencies) :: Pardoned(grid, maxContingencies, threshold, failOnWorsening, x)
  {
    forall x ensures x in StudyFailures(grid, Some(c), maxContingencies) <==>
      x.contingency in Take(grid.outages(Some(c)), maxContingencies) && FailsAs(grid, Some(c), x.contingency, x)
    {
      StudyFailuresMeaning(grid, Some(c), maxContingencies, x);
    }
    assert forall k, x | FailsAs(grid, Some(c), k, x) :: x.contingency == k;
  }

  /** The N-1 stage fails exactly when some evaluated outage fails in a way that is not pardoned, and passes otherwise. */
  lemma ContingencyStageMeaning(grid: Grid, c: Connection, maxContingencies: int, threshold: real, failOnWorsening: bool, repr: int -> string)
    requires Injective(repr)
    ensures var stage := ContingencyStageReport(Compare(StudyFailures(grid, None, maxContingencies),
        StudyFailures(grid, Some(c), maxContingencies), threshold, failOnWorsening, Signing(repr)));
      && (stage.status.Fail? <==> exists k, x ::
            k in Take(grid.outages(Some(c)), maxContingencies) && FailsAs(grid, Some(c), k, x)
            && !Pardoned(grid, maxContingencies, threshold, failOnWorsening, x))
      && (stage.status.Pass? <==> NoProjectFailure(grid, c, maxContingencies, threshold, failOnWorsening))
  {
    NoFailureCounted(grid, c, maxContingencies, threshold, failOnWorsening, repr);
  }
}
