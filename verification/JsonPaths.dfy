/** JSON values, dotted paths into them, and the value comparisons of the benchmark checks. */
module JsonPaths {
  import opened Prelude

  /** One part of a dotted path: a list position or a field name the benchmark uses. */
  datatype Part =
    | Index(i: int)
    | CasePathKey | ConnectionKey | TransientKey | EmtKey | DisturbanceKey
    | BusKey | PMwKey | QMvarKey | ConnectionTypeKey | IsIbrKey
    | EnabledKey | RequiredKey | ScrThresholdKey | BorderlineMarginKey
    | TypeKey | FaultStartKey | ClearingTimeKey
    | OkKey | RecommendationKey | CompleteKey | StageReportsKey | StageKey | StatusKey | PassedKey
    | M2ResultKey | EmtResultKey | SummaryKey | LinkageKey | MetricsKey | ScrKey
    | M1RecommendationKey | M2StatusKey | EmtStatusKey | EmtScrKey
    | DynamicModelingKey | ConnectionApplicationKey | AppliedKey | EmtModelsKey | EmtLinkageKey
    | ToolKey | OracleKey
    | SourceKey | CaseSourceKey | M1CaseSourceKey | M2CaseSourceKey

  type Path = seq<Part>

  datatype Json =
    | Null
    | Bool(b: bool)
    | Int(n: int)
    | Float(x: real)
    | Chars(s: string)
    | Arr(items: seq<Json>)
    | Obj(fields: map<Part, Json>)

  /** Where one part of a path leads. */
  function Child(j: Json, part: Part): Option<Json> {
    match j
    case Obj(fields) => if part in fields then Some(fields[part]) else None
    case Arr(items) => if part.Index? && 0 <= part.i < |items| then Some(items[part.i]) else None
    case _ => None
  }

  function Resolve(root: Json, path: Path): Option<Json> {
    if path == [] then Some(root)
    else
      var parent := Resolve(root, path[..|path| - 1]);
      if parent.None? then None else Child(parent.value, path[|path| - 1])
  }

  /** `_resolve_path`: follows the path until a part leads nowhere. */
  method ResolvePath(root: Json, path: Path) returns (r: Option<Json>)
    ensures r == Resolve(root, path)
  {
    var current := root;
    for k := 0 to |path|
      invariant Resolve(root, path[..k]) == Some(current)
    {
      assert path[..k + 1][..k] == path[..k];
      var next := Child(current, path[k]);
      if next.None? {
        ResolveStops(root, path, k + 1);
        return None;
      }
      current := next.value;
    }
    assert path[..|path|] == path;
    r := Some(current);
  }

  /** A path that leads nowhere leads nowhere however it goes on. */
  lemma {:induction false} ResolveStops(root: Json, path: Path, k: nat)
    requires k <= |path| && Resolve(root, path[..k]).None?
    ensures Resolve(root, path).None?
  {
    if k == |path| {
      assert path[..k] == path;
    } else {
      assert path[..|path| - 1][..k] == path[..k];
      ResolveStops(root, path[..|path| - 1], k);
    }
  }

  function Then(j: Option<Json>, part: Part): Option<Json> {
    if j.None? then None else Child(j.value, part)
  }

  lemma ResolveSnoc(root: Json, path: Path, part: Part)
    ensures Resolve(root, path + [part]) == Then(Resolve(root, path), part)
  {
    assert (path + [part])[..|path|] == path;
  }

  lemma Resolve1(root: Json, a: Part)
    ensures Resolve(root, [a]) == Child(root, a)
  {
  }

  lemma Resolve2(root: Json, a: Part, b: Part)
    ensures Resolve(root, [a, b]) == Then(Child(root, a), b)
  {
    Resolve1(root, a);
    ResolveSnoc(root, [a], b);
    assert [a] + [b] == [a, b];
  }

  lemma Resolve3(root: Json, a: Part, b: Part, c: Part)
    ensures Resolve(root, [a, b, c]) == Then(Then(Child(root, a), b), c)
  {
    Resolve2(root, a, b);
    ResolveSnoc(root, [a, b], c);
    assert [a, b] + [c] == [a, b, c];
  }

  // ---- comparing values ----

  datatype Expected = AnyValue | Exactly(value: Json)

  /** Python's `==` on scalars: truth values count as 0 and 1. */
  function NumberOf(j: Json): Option<real> {
    match j
    case Bool(b) => Some(if b then 1.0 else 0.0)
    case Int(n) => Some(n as real)
    case Float(x) => Some(x)
    case _ => None
  }

  predicate PyEqual(a: Json, b: Json) {
    if NumberOf(a).Some? && NumberOf(b).Some? then NumberOf(a) == NumberOf(b) else a == b
  }

  predicate Close(a: real, b: real, tolerance: real) { -tolerance <= a - b <= tolerance }

  const EPSILON := 0.000000001

  predicate IsNumber(j: Json) { j.Int? || j.Float? }

  type Normalizer = string -> string

  // Case names compare up to aliases; anything else is compared as it is.
  function Normalized(normalize: Normalizer, j: Json): Json { if j.Chars? then Chars(normalize(j.s)) else j }

  predicate EndsWith(path: Path, key: Part) { path != [] && path[|path| - 1] == key }

  const PUBLIC_SOURCE := "powerfulcases_ieee118_public_dynamic"
  const ACCEPTED_SOURCES := {PUBLIC_SOURCE, "local_ieee118_raw_dyr_override", "bundled_public_ieee118_raw_dyr"}

  // The dotted text ends in "source".
  predicate NamesSource(path: Path) {
    path != [] && path[|path| - 1] in {SourceKey, CaseSourceKey, M1CaseSourceKey, M2CaseSourceKey}
  }

  /** `_value_matches` */
  predicate ValueMatches(normalize: Normalizer, actual: Json, expected: Expected, tolerance: Option<real>, path: Path) {
    if expected.AnyValue? then !actual.Null?
    else if EndsWith(path, CasePathKey) then PyEqual(Normalized(normalize, actual), Normalized(normalize, expected.value))
    else if NamesSource(path) && expected.value == Chars(PUBLIC_SOURCE) then actual.Chars? && actual.s in ACCEPTED_SOURCES
    else if expected.value.Float? || tolerance.Some? then
      IsNumber(actual) && NumberOf(expected.value).Some?
      && Close(NumberOf(actual).value, NumberOf(expected.value).value, if tolerance.Some? then tolerance.value else EPSILON)
    else PyEqual(actual, expected.value)
  }

  /** Every value matches itself along every path; under a tolerance, which only numbers have, unless the path names a
      case or its source. */
  lemma MatchesItself(normalize: Normalizer, value: Json, path: Path)
    ensures ValueMatches(normalize, value, Exactly(value), None, path)
    ensures forall tolerance: real | tolerance >= 0.0 ::
      ValueMatches(normalize, value, Exactly(value), Some(tolerance), path) <==>
        (IsNumber(value) || EndsWith(path, CasePathKey) || (NamesSource(path) && value == Chars(PUBLIC_SOURCE)))
  {
  }

  /** When a value matches an expected one, by the kind of the expected value: a number up to a billionth or the tolerance
      given, which truth values never meet; a whole number or a truth value as a number; a case name up to aliases; the
      public source by any of its three texts; any other value by equality. */
  lemma NumberMatches(normalize: Normalizer, actual: Json, x: real, path: Path)
    requires !EndsWith(path, CasePathKey)
    ensures ValueMatches(normalize, actual, Exactly(Float(x)), None, path) <==>
      match actual
      case Int(n) => -0.000000001 <= n as real - x <= 0.000000001
      case Float(y) => -0.000000001 <= y - x <= 0.000000001
      case _ => false
    ensures forall tolerance: real :: ValueMatches(normalize, actual, Exactly(Float(x)), Some(tolerance), path) <==>
      match actual
      case Int(n) => -tolerance <= n as real - x <= tolerance
      case Float(y) => -tolerance <= y - x <= tolerance
      case _ => false
  {
  }

  lemma ExactMatches(normalize: Normalizer, actual: Json, expected: Json, path: Path)
    requires !EndsWith(path, CasePathKey) && !expected.Float?
    ensures ValueMatches(normalize, actual, AnyValue, None, path) <==> actual != Null
    ensures NamesSource(path) && expected == Chars(PUBLIC_SOURCE) ==>
      (ValueMatches(normalize, actual, Exactly(expected), None, path) <==> actual.Chars? && actual.s in ACCEPTED_SOURCES)
    ensures !NamesSource(path) || expected != Chars(PUBLIC_SOURCE) ==>
      (ValueMatches(normalize, actual, Exactly(expected), None, path) <==>
        match (actual, expected)
        case (Float(y), Int(n)) => y == n as real
        case (Bool(b), Int(n)) => n == (if b then 1 else 0)
        case (Int(m), Bool(b)) => m == (if b then 1 else 0)
        case (Float(y), Bool(b)) => y == (if b then 1.0 else 0.0)
        case _ => actual == expected)
  {
  }

  lemma CaseNameMatches(normalize: Normalizer, actual: string, expected: string, tolerance: Option<real>, path: Path)
    requires EndsWith(path, CasePathKey)
    ensures ValueMatches(normalize, Chars(actual), Exactly(Chars(expected)), tolerance, path) <==> normalize(actual) == normalize(expected)
  {
  }

  const DEFAULTABLE: map<Path, Json> := map[
    [TransientKey, EnabledKey] := Bool(true),
    [TransientKey, RequiredKey] := Bool(true),
    [EmtKey, ScrThresholdKey] := Float(3.0),
    [EmtKey, BorderlineMarginKey] := Float(0.25)]

  // Absolute clearing times, or durations counted from the fault start.
  predicate ClearingTimeMatches(normalize: Normalizer, root: Json, path: Path, actual: Json, expected: Json)
    requires path != []
  {
    ValueMatches(normalize, actual, Exactly(expected), None, path)
    || (IsNumber(actual) && IsNumber(expected) &&
        var start := Resolve(root, path[..|path| - 1] + [FaultStartKey]);
        start.Some? && IsNumber(start.value) &&
        var a, e, s := NumberOf(actual).value, NumberOf(expected).value, NumberOf(start.value).value;
        Close(a, e, EPSILON)
        || (a <= s && Close(s + a, e, EPSILON))
        || (e <= s && Close(a, s + e, EPSILON))
        || (a <= s && e <= s && Close(s + a, s + e, EPSILON)))
  }

  /** Times after the fault start are compared as they are; one not after it may also be a duration from it. */
  lemma ClearingTimeMeaning(normalize: Normalizer, root: Json, path: Path, a: real, e: real, start: real)
    requires path != [] && !EndsWith(path, CasePathKey) && Resolve(root, path[..|path| - 1] + [FaultStartKey]) == Some(Float(start))
    ensures var matched := ClearingTimeMatches(normalize, root, path, Float(a), Float(e));
      && (a > start && e > start ==> (matched <==> -0.000000001 <= a - e <= 0.000000001))
      && (a <= start < e ==> (matched <==> -0.000000001 <= a - e <= 0.000000001 || -0.000000001 <= start + a - e <= 0.000000001))
      && (e <= start < a ==> (matched <==> -0.000000001 <= a - e <= 0.000000001 || -0.000000001 <= a - start - e <= 0.000000001))
  {
  }

  function Truthy(j: Json): bool {
    match j
    case Null => false
    case Bool(b) => b
    case Int(n) => n != 0
    case Float(x) => x != 0.0
    case Chars(s) => s != ""
    case Arr(items) => items != []
    case Obj(fields) => fields != map[]
  }

  function DefaultEmtRequired(root: Json): Option<bool> {
    var payload := Resolve(root, [EmtKey]);
    if payload.None? || !payload.value.Obj? then None
    else
      var enabled := Resolve(root, [EmtKey, EnabledKey]);
      Some(enabled.None? || Truthy(enabled.value))
  }

  /** `_argument_value_passed`: arguments that may be left out are compared by their defaults. */
  predicate ArgumentPasses(normalize: Normalizer, root: Json, path: Path, expected: Json) {
    var found := Resolve(root, path);
    if path == [TransientKey, CasePathKey] && found.None? then
      var casePath := Resolve(root, [CasePathKey]);
      casePath.Some? && PyEqual(Normalized(normalize, casePath.value), Normalized(normalize, expected))
    else if path == [EmtKey, RequiredKey] && found.None? then
      DefaultEmtRequired(root).Some? && ValueMatches(normalize, Bool(DefaultEmtRequired(root).value), Exactly(expected), None, path)
    else if found.None? then
      path in DEFAULTABLE
      && (path[0] == EmtKey ==> Resolve(root, [EmtKey]).Some?)
      && ValueMatches(normalize, DEFAULTABLE[path], Exactly(expected), None, path)
    else if EndsWith(path, ClearingTimeKey) then ClearingTimeMatches(normalize, root, path, found.value, expected)
    else ValueMatches(normalize, found.value, Exactly(expected), None, path)
  }

  /** An argument that is there with the expected value always passes. */
  lemma FoundArgumentPasses(normalize: Normalizer, root: Json, path: Path, expected: Json)
    requires Resolve(root, path) == Some(expected)
    ensures ArgumentPasses(normalize, root, path, expected)
  {
    MatchesItself(normalize, expected, path);
  }

  /** A flag of the transient block that is left out passes as true ... */
  lemma LeftOutFlag(normalize: Normalizer, root: Json, key: Part, expected: Json)
    requires key in {EnabledKey, RequiredKey} && Resolve(root, [TransientKey, key]).None?
    ensures ArgumentPasses(normalize, root, [TransientKey, key], expected) <==>
      ValueMatches(normalize, Bool(true), Exactly(expected), None, [TransientKey, key])
  {
    var path := [TransientKey, key];
    assert path[0] == TransientKey && path[1] == key;
    assert path != [TransientKey, CasePathKey] && path != [EmtKey, RequiredKey];
    assert path != [EmtKey, ScrThresholdKey] && path != [EmtKey, BorderlineMarginKey];
    assert [TransientKey, EnabledKey] != [TransientKey, RequiredKey];
  }

  /** ... a threshold or margin of an EMT block as 3 or 0.25 ... */
  lemma LeftOutLimit(normalize: Normalizer, root: Json, key: Part, expected: Json)
    requires key in {ScrThresholdKey, BorderlineMarginKey} && Resolve(root, [EmtKey, key]).None?
    ensures ArgumentPasses(normalize, root, [EmtKey, key], expected) <==>
      Resolve(root, [EmtKey]).Some?
      && ValueMatches(normalize, Float(if key == ScrThresholdKey then 3.0 else 0.25), Exactly(expected), None, [EmtKey, key])
  {
    var path := [EmtKey, key];
    assert path[0] == EmtKey && path[1] == key;
    assert path != [TransientKey, CasePathKey] && path != [EmtKey, RequiredKey];
    assert path != [TransientKey, EnabledKey] && path != [TransientKey, RequiredKey];
    assert [EmtKey, ScrThresholdKey] != [EmtKey, BorderlineMarginKey];
  }

  /** ... and the dynamic case as the case of the request. */
  lemma LeftOutCase(normalize: Normalizer, root: Json, name: string, asked: string)
    requires Resolve(root, [TransientKey, CasePathKey]).None? && Resolve(root, [CasePathKey]) == Some(Chars(name))
    ensures ArgumentPasses(normalize, root, [TransientKey, CasePathKey], Chars(asked)) <==> normalize(name) == normalize(asked)
  {
  }
}
