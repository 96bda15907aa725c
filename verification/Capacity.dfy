/** Capacity search: memoised bisection over an accept/reject oracle, with a coarse-scan fallback. */
module Capacity {
  import opened Prelude
  import opened Rounding
  import opened GridModel
  import opened Stages
  import Cia
  import C = Contingencies

  // ---- samples ----

  datatype LimitingSummary =
    | BaselineSummary(error: string)
    | StageSummary(stage: Stage)
    | OverallSummary(recommendation: Recommendation, reasonCodes: seq<string>)

  // `recommendation` is None where the report carries none ("error").
  datatype Sample = Sample(
    mw: real,
    accepted: bool,
    recommendation: Option<Recommendation>,
    complete: bool,
    reasonCodes: seq<string>,
    limiting: Option<LimitingSummary>)

  // The assessment at one size; an exception that escapes it is Err.
  type Oracle = real -> Result<Cia.CiaReport, string>

  predicate Accepts(report: Cia.CiaReport) { report.Report? && report.recommendation.Approve? }

  predicate IsLimiting(s: Stage) { s.status in {Fail, BorderlineStatus, NotImplemented, NotRun} }

  function Limiting(report: Cia.CiaReport): LimitingSummary {
    match report
    case BaselineFailed(error) => BaselineSummary(error)
    case Report(recommendation, _, codes, stages) =>
      var limiting := Filter(stages, IsLimiting);
      if limiting != [] then StageSummary(limiting[0]) else OverallSummary(recommendation, codes)
  }

  function SampleFromReport(mw: real, report: Cia.CiaReport): (s: Sample)
    ensures s.mw == mw && s.accepted == Accepts(report)
  {
    var limiting := if Accepts(report) then None else Some(Limiting(report));
    match report
    case BaselineFailed(_) => Sample(mw, Accepts(report), None, false, [], limiting)
    case Report(recommendation, complete, codes, _) =>
      Sample(mw, Accepts(report), Some(recommendation), complete, codes, limiting)
  }

  /** A sample records its report; a size that is not approved is explained by the baseline that did not converge, by the
      first stage that failed, is borderline, not implemented or not run, or, without one, by the verdict. */
  lemma RejectionMeaning(mw: real, report: Cia.CiaReport)
    ensures var s := SampleFromReport(mw, report);
      match report
      case BaselineFailed(error) => s == Sample(mw, false, None, false, [], Some(BaselineSummary(error)))
      case Report(recommendation, complete, codes, stages) =>
        && s.recommendation == Some(recommendation) && s.complete == complete && s.reasonCodes == codes
        && (s.limiting.None? <==> recommendation.Approve?)
        && (!recommendation.Approve? ==>
             && ((forall stage | stage in stages :: stage.status !in {Fail, BorderlineStatus, NotImplemented, NotRun}) ==>
                  s.limiting == Some(OverallSummary(recommendation, codes)))
             && (forall i: nat | i < |stages| && stages[i].status in {Fail, BorderlineStatus, NotImplemented, NotRun}
                    && (forall j: nat | j < i :: stages[j].status !in {Fail, BorderlineStatus, NotImplemented, NotRun}) ::
                  s.limiting == Some(StageSummary(stages[i]))))
  {
    if report.Report? && !report.recommendation.Approve? {
      var stages := report.stages;
      FilterNone(stages, IsLimiting);
      forall i: nat | i < |stages| && IsLimiting(stages[i]) && (forall j: nat | j < i :: !IsLimiting(stages[j]))
        ensures Limiting(report) == StageSummary(stages[i])
      {
        FirstLimiting(stages, i);
      }
    }
  }

  lemma FirstLimiting(stages: seq<Stage>, i: nat)
    requires i < |stages| && IsLimiting(stages[i]) && forall j: nat | j < i :: !IsLimiting(stages[j])
    ensures Filter(stages, IsLimiting) != [] && Filter(stages, IsLimiting)[0] == stages[i]
  {
    FilterNone(stages[..i], IsLimiting);
    FilterAt(stages, i, IsLimiting);
  }

  // The sample `evaluate` would take at each size.
  type Sampler = real -> Sample

  ghost predicate KeepsSize(take: Sampler) { forall mw :: take(mw).mw == mw }

  function SampleOf(mw: real, r: Result<Cia.CiaReport, string>): Sample {
    match r case Ok(report) => SampleFromReport(mw, report) case Err(error) => SampleFromReport(mw, Cia.BaselineFailed(error))
  }

  function Sampling(cia: Oracle): Sampler { mw => SampleOf(mw, cia(mw)) }

  // The exception raised at each size, None where there is a report.
  type Raising = real -> Option<string>

  function ErrorOf(r: Result<Cia.CiaReport, string>): Option<string> { if r.Err? then Some(r.error) else None }

  function RaisingOf(cia: Oracle): Raising { mw => ErrorOf(cia(mw)) }

  lemma SamplingKeepsSize(cia: Oracle)
    ensures KeepsSize(Sampling(cia))
  {
    forall mw ensures Sampling(cia)(mw).mw == mw {
      assert Sampling(cia)(mw) == SampleOf(mw, cia(mw));
    }
  }

  // ---- the monotonicity monitor ----

  datatype Contradiction = Contradiction(
    lowerRejected: real,
    higherApproved: real,
    lowerRecommendation: Option<Recommendation>,
    higherRecommendation: Option<Recommendation>)

  function MwLe(x: Sample, y: Sample): bool { x.mw <= y.mw }

  ghost predicate DistinctMw(samples: seq<Sample>) {
    forall x, y | x in samples && y in samples && x.mw == y.mw :: x == y
  }

  /** No rejected sample lies below an accepted one. */
  ghost predicate Monotone(samples: seq<Sample>) {
    forall x, y | x in samples && y in samples && !x.accepted && y.accepted :: y.mw < x.mw
  }

  /** The index of the first accepted sample behind `i`, or the length of the list. */
  function NextApproved(ordered: seq<Sample>, i: nat): (j: nat)
    requires i < |ordered|
    ensures i < j <= |ordered| && (j < |ordered| ==> ordered[j].accepted)
    ensures forall b | i < b < j :: !ordered[b].accepted
    decreases |ordered| - i
  {
    if i + 1 == |ordered| || ordered[i + 1].accepted then i + 1 else NextApproved(ordered, i + 1)
  }

  predicate Contradicted(ordered: seq<Sample>, i: nat)
    requires i < |ordered|
  {
    !ordered[i].accepted && NextApproved(ordered, i) < |ordered|
  }

  function PairAt(ordered: seq<Sample>, i: nat): Contradiction
    requires i < |ordered| && Contradicted(ordered, i)
  {
    var lower, higher := ordered[i], ordered[NextApproved(ordered, i)];
    Contradiction(lower.mw, higher.mw, lower.recommendation, higher.recommendation)
  }

  /** One entry for each of the first `n` samples that is rejected below an accepted one. */
  function ContradictionsOf(ordered: seq<Sample>, n: nat): seq<Contradiction>
    requires n <= |ordered|
  {
    if n == 0 then []
    else ContradictionsOf(ordered, n - 1) + (if Contradicted(ordered, n - 1) then [PairAt(ordered, n - 1)] else [])
  }

  function Monitor(samples: seq<Sample>): seq<Contradiction> { ContradictionsOf(Sort(samples, MwLe), |samples|) }

  method FirstApprovedAbove(ordered: seq<Sample>, i: nat) returns (j: nat)
    requires i < |ordered|
    ensures j == NextApproved(ordered, i)
  {
    j := i + 1;
    while j < |ordered| && !ordered[j].accepted
      invariant i < j <= |ordered|
      invariant NextApproved(ordered, i) == NextApproved(ordered, j - 1)
    {
      j := j + 1;
    }
  }

  /** `_monotonicity_contradictions` */
  method MonotonicityContradictions(samples: seq<Sample>) returns (r: seq<Contradiction>)
    ensures r == Monitor(samples)
    ensures DistinctMw(samples) ==> (r == [] <==> Monotone(samples))
  {
    var ordered := Sort(samples, MwLe);
    r := [];
    for i := 0 to |ordered|
      invariant r == ContradictionsOf(ordered, i)
    {
      if !ordered[i].accepted {
        var j := FirstApprovedAbove(ordered, i);
        if j < |ordered| {
          r := r + [Contradiction(ordered[i].mw, ordered[j].mw, ordered[i].recommendation, ordered[j].recommendation)];
        }
      }
    }
    if DistinctMw(samples) {
      MonitorIsExact(samples);
    }
  }

  lemma {:induction false} EmptyContradictions(ordered: seq<Sample>, n: nat)
    requires n <= |ordered|
    ensures ContradictionsOf(ordered, n) == [] <==> forall i | 0 <= i < n :: !Contradicted(ordered, i)
  {
    if n > 0 {
      EmptyContradictions(ordered, n - 1);
    }
  }

  /** The monitor is silent exactly when no rejected sample lies below an accepted one. */
  lemma MonitorIsExact(samples: seq<Sample>)
    requires DistinctMw(samples)
    ensures Monitor(samples) == [] <==> Monotone(samples)
  {
    var ordered := Sort(samples, MwLe);
    SortOrdered(samples, MwLe);
    EmptyContradictions(ordered, |ordered|);
    OrderedMonotone(samples, ordered);
  }

  // `y` is the least accepted sample above the rejected sample `x`, and `c` records the pair.
  ghost predicate Witness(samples: seq<Sample>, c: Contradiction, x: Sample, y: Sample) {
    && x in samples && y in samples && !x.accepted && y.accepted
    && x.mw == c.lowerRejected < c.higherApproved == y.mw
    && x.recommendation == c.lowerRecommendation && y.recommendation == c.higherRecommendation
    && forall z | z in samples && z.accepted && z.mw > x.mw :: y.mw <= z.mw
  }

  lemma PairWitnessed(samples: seq<Sample>, ordered: seq<Sample>, i: nat)
    requires i < |ordered| && Ordered(ordered, MwLe) && DistinctMw(samples) && forall x :: x in ordered <==> x in samples
    requires Contradicted(ordered, i)
    ensures Witness(samples, PairAt(ordered, i), ordered[i], ordered[NextApproved(ordered, i)])
  {
  }

  /** Every entry pairs a rejected sample with the least accepted one above it. */
  lemma {:induction false} ContradictionsWitnessed(samples: seq<Sample>, ordered: seq<Sample>, n: nat, c: Contradiction)
    returns (x: Sample, y: Sample)
    requires Ordered(ordered, MwLe) && DistinctMw(samples) && forall z :: z in ordered <==> z in samples
    requires n <= |ordered| && c in ContradictionsOf(ordered, n)
    ensures Witness(samples, c, x, y)
  {
    if c in ContradictionsOf(ordered, n - 1) {
      x, y := ContradictionsWitnessed(samples, ordered, n - 1, c);
    } else {
      assert Contradicted(ordered, n - 1) && c == PairAt(ordered, n - 1);
      PairWitnessed(samples, ordered, n - 1);
      x, y := ordered[n - 1], ordered[NextApproved(ordered, n - 1)];
    }
  }

  lemma {:induction false} ContradictedListed(ordered: seq<Sample>, n: nat, i: nat)
    requires i < n <= |ordered| && Contradicted(ordered, i)
    ensures PairAt(ordered, i) in ContradictionsOf(ordered, n)
  {
    if i < n - 1 {
      ContradictedListed(ordered, n - 1, i);
    }
  }

  /** And every rejected sample below an accepted one has its entry. */
  lemma EveryContradictionListed(samples: seq<Sample>, x: Sample, z: Sample) returns (c: Contradiction, y: Sample)
    requires DistinctMw(samples) && x in samples && z in samples && !x.accepted && z.accepted && x.mw < z.mw
    ensures c in Monitor(samples) && Witness(samples, c, x, y)
  {
    var ordered := Sort(samples, MwLe);
    SortOrdered(samples, MwLe);
    assert x in ordered && z in ordered;
    var i :| 0 <= i < |ordered| && ordered[i] == x;
    var k :| 0 <= k < |ordered| && ordered[k] == z;
    assert MwLe(ordered[k], ordered[i]) <==> z.mw <= x.mw;
    ContradictedListed(ordered, |ordered|, i);
    PairWitnessed(samples, ordered, i);
    c, y := PairAt(ordered, i), ordered[NextApproved(ordered, i)];
  }

  /** With the two ends alone, the lower rejected and the upper accepted, the monitor reports just this pair. */
  lemma EndsContradict(low: Sample, high: Sample)
    requires low.mw < high.mw && !low.accepted && high.accepted
    ensures Monitor([low, high]) == [Contradiction(low.mw, high.mw, low.recommendation, high.recommendation)]
  {
    assert [low, high][..1] == [low] && [low][..0] == [];
    assert Sort([low], MwLe) == [low];
    var ordered := [low, high];
    assert Sort([low, high], MwLe) == ordered;
    assert NextApproved(ordered, 0) == 1;
    assert ContradictionsOf(ordered, 0) == [];
    assert ContradictionsOf(ordered, 1) == [PairAt(ordered, 0)];
    assert ContradictionsOf(ordered, 2) == ContradictionsOf(ordered, 1) + [];
  }

  lemma OrderedMonotone(samples: seq<Sample>, ordered: seq<Sample>)
    requires Ordered(ordered, MwLe) && DistinctMw(samples) && forall x :: x in ordered <==> x in samples
    ensures Monotone(samples) <==> forall a | 0 <= a < |ordered| :: !Contradicted(ordered, a)
  {
    if Monotone(samples) {
      forall a | 0 <= a < |ordered| ensures !Contradicted(ordered, a) {
        var b := NextApproved(ordered, a);
        assert ordered[a] in samples;
        assert b < |ordered| ==> MwLe(ordered[a], ordered[b]) && ordered[b] in samples;
      }
    }
    if forall a | 0 <= a < |ordered| :: !Contradicted(ordered, a) {
      forall x, y | x in samples && y in samples && !x.accepted && y.accepted ensures y.mw < x.mw {
        assert x in ordered && y in ordered;
        var a :| 0 <= a < |ordered| && ordered[a] == x;
        var b :| 0 <= b < |ordered| && ordered[b] == y;
        assert !Contradicted(ordered, a);
        assert b < a;
        assert MwLe(y, x);
      }
    }
  }

  // ---- the memo ----

  ghost predicate MemoOk(samples: seq<Sample>, byKey: map<int, Sample>, take: Sampler, key: real -> int) {
    && KeepsSize(take)
    && (forall s | s in samples :: s == take(s.mw) && key(s.mw) in byKey && byKey[key(s.mw)] == s)
    && (forall k | k in byKey :: byKey[k] in samples && key(byKey[k].mw) == k)
    && |samples| == |byKey|
  }

  lemma MemoHit(samples: seq<Sample>, byKey: map<int, Sample>, take: Sampler, key: real -> int, k: int)
    requires MemoOk(samples, byKey, take, key) && k in byKey
    ensures byKey[k] in samples && key(byKey[k].mw) == k
  {
  }

  // Every sample was taken without an exception.
  ghost predicate NothingRaised(samples: seq<Sample>, raises: Raising) {
    forall s | s in samples :: raises(s.mw).None?
  }

  /** The closure `evaluate` with the list and the dictionary it fills. */
  class Memo {
    const take: Sampler
    const raises: Raising
    const key: real -> int
    var samples: seq<Sample>
    var byKey: map<int, Sample>

    constructor (take: Sampler, raises: Raising, key: real -> int)
      requires KeepsSize(take)
      ensures this.take == take && this.raises == raises && this.key == key && samples == [] && byKey == map[]
      ensures Valid()
    {
      this.take, this.raises, this.key, samples, byKey := take, raises, key, [], map[];
    }

    ghost predicate Valid()
      reads this
    {
      MemoOk(samples, byKey, take, key) && NothingRaised(samples, raises)
    }

    /** A cached size never raises; an uncached one raises exactly when the assessment does, and then nothing is stored. */
    method Evaluate(mw: real) returns (r: Result<Sample, string>)
      requires Valid()
      modifies this
      ensures Valid()
      ensures r.Err? <==> key(mw) !in old(byKey) && raises(mw).Some?
      ensures r.Err? ==> raises(mw) == Some(r.error) && samples == old(samples) && byKey == old(byKey)
      ensures r.Ok? ==> r.value in samples && key(r.value.mw) == key(mw)
      ensures key(mw) in old(byKey) ==> r == Ok(old(byKey)[key(mw)]) && samples == old(samples) && byKey == old(byKey)
      ensures r.Ok? && key(mw) !in old(byKey) ==>
        r.value == take(mw) && samples == old(samples) + [r.value] && byKey == old(byKey)[key(mw) := r.value]
    {
      var k := key(mw);
      if k in byKey {
        MemoHit(samples, byKey, take, key, k);
        return Ok(byKey[k]);
      }
      if raises(mw).Some? {
        return Err(raises(mw).value);
      }
      var s := take(mw);
      samples := samples + [s];
      byKey := byKey[k := s];
      r := Ok(s);
    }
  }

  // ---- the search ----

  datatype SearchConfig = SearchConfig(
    minMw: real,
    maxMw: real,
    toleranceMw: real,
    maxIterations: int,
    coarseScanPoints: int,
    maxSamples: int)

  datatype SearchStatus = MinBoundRejected | MaxBoundApproved | Bounded | IterationLimit | MonotonicityFallback

  datatype SearchResult = SearchResult(
    status: SearchStatus,
    maxApprovedMw: Option<real>,
    lowerBoundMw: Option<real>,
    upperBoundMw: Option<real>,
    iterations: nat,
    best: Option<Sample>,
    firstRejected: Option<Sample>,
    rejectionExplanation: Option<LimitingSummary>,
    samples: Limited<Sample>,
    scanEvaluations: nat,
    contradictions: seq<Contradiction>)

  function MakeResult(config: SearchConfig, status: SearchStatus, maxApproved: Option<real>, lower: Option<real>, upper: Option<real>,
                      iterations: nat, samples: seq<Sample>, best: Option<Sample>, firstRejected: Option<Sample>,
                      scanEvaluations: nat, contradictions: seq<Contradiction>): SearchResult {
    SearchResult(status, maxApproved, lower, upper, iterations, best, firstRejected,
      if firstRejected.None? then None else firstRejected.value.limiting,
      LimitItems(Sort(samples, MwLe), config.maxSamples), scanEvaluations, contradictions)
  }

  /** The first failing check of `_validate_search_bounds`. */
  function BoundsError(c: SearchConfig): (r: Option<string>)
    ensures r.None? <==>
      (0.0 <= c.minMw <= c.maxMw && c.toleranceMw > 0.0 && c.maxIterations > 0 && c.coarseScanPoints >= 2)
  {
    if c.minMw < 0.0 || c.maxMw < 0.0 then Some("min_mw and max_mw must be non-negative")
    else if c.maxMw < c.minMw then Some("max_mw must be greater than or equal to min_mw")
    else if c.toleranceMw <= 0.0 then Some("tolerance_mw must be positive")
    else if c.maxIterations <= 0 then Some("max_iterations must be positive")
    else if c.coarseScanPoints < 2 then Some("coarse_scan_points must be at least 2")
    else None
  }

  /** The exception was raised at some size between the bounds. */
  ghost predicate RaisedWithin(c: SearchConfig, raises: Raising, error: string) {
    exists mw: real :: c.minMw <= mw <= c.maxMw && raises(mw) == Some(error)
  }

  ghost predicate InBounds(c: SearchConfig, samples: seq<Sample>) {
    forall s | s in samples :: c.minMw <= s.mw <= c.maxMw
  }

  ghost predicate KeyMonotone(key: real -> int) {
    forall x: real, y: real | x <= y :: key(x) <= key(y)
  }

  function Pow2(k: nat): real { if k == 0 then 1.0 else 2.0 * Pow2(k - 1) }

  // `lo` and `up` are the greatest accepted and the least rejected sample.
  ghost predicate Bracketing(samples: seq<Sample>, lo: Sample, up: Sample) {
    && lo in samples && up in samples && lo.accepted && !up.accepted && lo.mw < up.mw
    && forall s | s in samples :: if s.accepted then s.mw <= lo.mw else up.mw <= s.mw
  }

  ghost predicate Bisecting(samples: seq<Sample>, byKey: map<int, Sample>, take: Sampler, key: real -> int, lo: Sample, up: Sample) {
    MemoOk(samples, byKey, take, key) && Bracketing(samples, lo, up)
  }

  lemma MemoDistinct(samples: seq<Sample>, byKey: map<int, Sample>, take: Sampler, key: real -> int)
    requires MemoOk(samples, byKey, take, key)
    ensures DistinctMw(samples)
  {
  }

  /** A cached answer inside the bracket can only be one of the two bounds. */
  lemma HitIsBound(samples: seq<Sample>, byKey: map<int, Sample>, take: Sampler, key: real -> int, lo: Sample, up: Sample, mid: real)
    requires KeyMonotone(key) && Bisecting(samples, byKey, take, key, lo, up)
    requires lo.mw < mid < up.mw && key(mid) in byKey
    ensures byKey[key(mid)] == if byKey[key(mid)].accepted then lo else up
  {
  }

  /** In a bracketed state the monitor finds nothing. */
  lemma BisectingIsMonotone(samples: seq<Sample>, byKey: map<int, Sample>, take: Sampler, key: real -> int, lo: Sample, up: Sample)
    requires Bisecting(samples, byKey, take, key, lo, up)
    ensures Monotone(samples) && DistinctMw(samples)
  {
  }

  lemma HalvingStep(width: real, k: nat)
    ensures width / 2.0 * Pow2(k + 1) == width * Pow2(k)
  {
    assert Pow2(k + 1) == 2.0 * Pow2(k);
  }

  // What one run reports, by status.
  ghost predicate SameKey(c: SearchConfig, key: real -> int) { key(c.minMw) == key(c.maxMw) }

  ghost predicate StatusTable(c: SearchConfig, take: Sampler, key: real -> int, status: SearchStatus) {
    var low, high := take(c.minMw).accepted, take(c.maxMw).accepted;
    && (status.MonotonicityFallback? <==> !low && high && !SameKey(c, key))
    && (status.MinBoundRejected? <==> !low && (!high || SameKey(c, key)))
    && (status.MaxBoundApproved? <==> low && (high || SameKey(c, key)))
    && (status.Bounded? || status.IterationLimit? <==> low && !high && !SameKey(c, key))
  }

  ghost predicate Sampled(trace: seq<Sample>, take: Sampler, key: real -> int) {
    && (forall s | s in trace :: s == take(s.mw))
    && (forall x, y | x in trace && y in trace && key(x.mw) == key(y.mw) :: x == y)
  }

  /** No accepted sample lies above the lower bound, no rejected one below the upper bound. */
  ghost predicate Brackets(r: SearchResult, trace: seq<Sample>) {
    forall s | s in trace ::
      if s.accepted then r.lowerBoundMw.Some? && s.mw <= r.lowerBoundMw.value
      else r.upperBoundMw.Some? && r.upperBoundMw.value <= s.mw
  }

  /** The bounds are themselves samples, except that with both ends under one key the upper end is reported
      as approved although only the lower end was evaluated. */
  ghost predicate Attained(c: SearchConfig, key: real -> int, r: SearchResult, trace: seq<Sample>) {
    && r.maxApprovedMw == r.lowerBoundMw
    && (r.lowerBoundMw.Some? <==> r.best.Some?) && (r.upperBoundMw.Some? <==> r.firstRejected.Some?)
    && (r.best.Some? ==> r.best.value in trace && r.best.value.accepted)
    && (r.best.Some? ==> (r.best.value.mw == r.lowerBoundMw.value <==>
          !(r.status.MaxBoundApproved? && SameKey(c, key) && c.minMw < c.maxMw)))
    && (r.firstRejected.Some? ==> r.firstRejected.value in trace && !r.firstRejected.value.accepted)
    && (r.firstRejected.Some? ==> r.firstRejected.value.mw == r.upperBoundMw.value)
    && r.rejectionExplanation == (if r.firstRejected.Some? then r.firstRejected.value.limiting else None)
  }

  ghost predicate BisectionReport(c: SearchConfig, r: SearchResult, trace: seq<Sample>) {
    && r.lowerBoundMw.Some? && r.upperBoundMw.Some? && r.lowerBoundMw.value < r.upperBoundMw.value
    && 2 <= |trace| <= r.iterations + 2 <= c.maxIterations + 2
    && (var width := r.upperBoundMw.value - r.lowerBoundMw.value;
        && width * Pow2(|trace| - 2) == c.maxMw - c.minMw
        && (r.status.Bounded? <==> width <= c.toleranceMw)
        && (r.status.Bounded? ==> r.iterations == |trace| - 2)
        && (r.status.IterationLimit? ==> r.iterations == c.maxIterations)
        && (|trace| > 2 ==> 2.0 * width > c.toleranceMw))
  }

  function ScanPoint(c: SearchConfig, index: nat): real
    requires c.coarseScanPoints >= 2
  {
    c.minMw + (c.maxMw - c.minMw) * (index as real) / ((c.coarseScanPoints - 1) as real)
  }

  ghost function ScanKeys(c: SearchConfig, key: real -> int, n: nat): set<int>
    requires c.coarseScanPoints >= 2
  {
    set i | 0 <= i < n :: key(ScanPoint(c, i))
  }

  ghost predicate FallbackReport(c: SearchConfig, key: real -> int, r: SearchResult, trace: seq<Sample>)
    requires c.coarseScanPoints >= 2
  {
    && r.maxApprovedMw == Some(c.maxMw) && r.lowerBoundMw == Some(c.maxMw) && r.upperBoundMw == None
    && r.iterations == 0 && r.firstRejected == None && r.rejectionExplanation == None
    && (forall s | s in trace :: s.mw <= c.maxMw)
    && |trace| == r.scanEvaluations + 2 == |ScanKeys(c, key, c.coarseScanPoints)|
  }

  // ---- coarse scan ----

  /** `max(samples, key=mw)`, None on an empty list. */
  function Greatest(s: seq<Sample>): (r: Option<Sample>)
    ensures r.Some? <==> s != []
    ensures r.Some? ==> r.value in s && forall x | x in s :: x.mw <= r.value.mw
  {
    if s == [] then None
    else
      var rest := Greatest(s[..|s| - 1]);
      var last := s[|s| - 1];
      assert s == s[..|s| - 1] + [last];
      if rest.None? || rest.value.mw < last.mw then Some(last) else rest
  }

  /** `min(samples, key=mw)`, None on an empty list. */
  function Least(s: seq<Sample>): (r: Option<Sample>)
    ensures r.Some? <==> s != []
    ensures r.Some? ==> r.value in s && forall x | x in s :: r.value.mw <= x.mw
  {
    if s == [] then None
    else
      var rest := Least(s[..|s| - 1]);
      var last := s[|s| - 1];
      assert s == s[..|s| - 1] + [last];
      if rest.None? || last.mw < rest.value.mw then Some(last) else rest
  }

  predicate IsAccepted(s: Sample) { s.accepted }

  predicate IsRejected(s: Sample) { !s.accepted }

  // Rejected and, when something was approved, above the best approved sample.
  function RejectedAbove(best: Option<Sample>): Sample -> bool {
    (s: Sample) => !s.accepted && (best.Some? ==> s.mw > best.value.mw)
  }

  ghost predicate ScannedOnly(c: SearchConfig, before: seq<Sample>, after: seq<Sample>)
    requires c.coarseScanPoints >= 2
  {
    forall s | s in after :: s in before || exists i: nat | i < c.coarseScanPoints :: s.mw == ScanPoint(c, i)
  }

  lemma ScanStep(c: SearchConfig, before: seq<Sample>, samples: seq<Sample>, s: Sample, after: seq<Sample>, index: nat)
    requires c.coarseScanPoints >= 2 && index < c.coarseScanPoints
    requires before <= samples && ScannedOnly(c, before, samples)
    requires after == samples || (after == samples + [s] && s.mw == ScanPoint(c, index))
    ensures before <= after && ScannedOnly(c, before, after)
  {
  }

  /** Evaluates every scan point, or stops at the first that raises. */
  method CoarseScan(c: SearchConfig, memo: Memo) returns (e: Option<string>)
    requires c.coarseScanPoints >= 2 && c.minMw <= c.maxMw && memo.Valid()
    modifies memo
    ensures memo.Valid()
    ensures e.None? ==> memo.byKey.Keys == old(memo.byKey.Keys) + ScanKeys(c, memo.key, c.coarseScanPoints)
    ensures old(memo.samples) <= memo.samples && ScannedOnly(c, old(memo.samples), memo.samples)
    ensures e.Some? ==> RaisedWithin(c, memo.raises, e.value)
  {
    for index := 0 to c.coarseScanPoints
      invariant memo.Valid()
      invariant memo.byKey.Keys == old(memo.byKey.Keys) + ScanKeys(c, memo.key, index)
      invariant old(memo.samples) <= memo.samples && ScannedOnly(c, old(memo.samples), memo.samples)
    {
      ghost var samples := memo.samples;
      var sample := memo.Evaluate(ScanPoint(c, index));
      if sample.Err? {
        ScanPointRange(c, index);
        return Some(sample.error);
      }
      ScanStep(c, old(memo.samples), samples, sample.value, memo.samples, index);
      ScanKeysNext(c, memo.key, index);
    }
    e := None;
  }

  // The search falls back over one pair: the rejected lower and the accepted upper end.
  function EndPair(c: SearchConfig, take: Sampler): Contradiction {
    Contradiction(c.minMw, c.maxMw, take(c.minMw).recommendation, take(c.maxMw).recommendation)
  }

  // What the scan reports once all its points have been evaluated.
  ghost predicate ScanReport(c: SearchConfig, r: SearchResult, contradictions: seq<Contradiction>, iterations: nat, samples: seq<Sample>, before: nat) {
    && r.status.MonotonicityFallback? && r.iterations == iterations && r.contradictions == contradictions
    && |samples| == r.scanEvaluations + before
    && r.samples == LimitItems(Sort(samples, MwLe), c.maxSamples)
    && r.best == Greatest(Filter(samples, IsAccepted))
    && r.firstRejected == Least(Filter(samples, RejectedAbove(r.best)))
    && r.rejectionExplanation == (if r.firstRejected.Some? then r.firstRejected.value.limiting else None)
    && r.maxApprovedMw == r.lowerBoundMw == (if r.best.Some? then Some(r.best.value.mw) else None)
    && r.upperBoundMw == (if r.firstRejected.Some? then Some(r.firstRejected.value.mw) else None)
  }

  /** `_fallback_scan_result` */
  method FallbackScanResult(c: SearchConfig, memo: Memo, contradictions: seq<Contradiction>, iterations: nat)
    returns (r: Result<SearchResult, string>)
    requires c.coarseScanPoints >= 2 && c.minMw <= c.maxMw && memo.Valid()
    modifies memo
    ensures memo.Valid()
    ensures r.Err? ==> RaisedWithin(c, memo.raises, r.error)
    ensures r.Ok? ==> memo.byKey.Keys == old(memo.byKey.Keys) + ScanKeys(c, memo.key, c.coarseScanPoints)
    ensures old(memo.samples) <= memo.samples && ScannedOnly(c, old(memo.samples), memo.samples)
    ensures r.Ok? ==> ScanReport(c, r.value, contradictions, iterations, memo.samples, |old(memo.samples)|)
  {
    var samplesBefore := |memo.samples|;
    var error := CoarseScan(c, memo);
    if error.Some? {
      return Err(error.value);
    }
    var best := Greatest(Filter(memo.samples, IsAccepted));
    var rejected := Filter(memo.samples, IsRejected);
    var firstRejected := None;
    if best.Some? {
      var above := (s: Sample) => s.mw > best.value.mw;
      FilterFilter(memo.samples, IsRejected, above, RejectedAbove(best));
      firstRejected := Least(Filter(rejected, above));
    } else {
      FilterCong(memo.samples, IsRejected, RejectedAbove(best));
      firstRejected := Least(rejected);
    }
    r := Ok(MakeResult(c, MonotonicityFallback,
      if best.Some? then Some(best.value.mw) else None,
      if best.Some? then Some(best.value.mw) else None,
      if firstRejected.Some? then Some(firstRejected.value.mw) else None,
      iterations, memo.samples, best, firstRejected, |memo.samples| - samplesBefore, contradictions));
  }

  /** Scan points run from the lower to the upper end. */
  lemma ScanPointRange(c: SearchConfig, i: nat)
    requires c.coarseScanPoints >= 2 && c.minMw <= c.maxMw && i < c.coarseScanPoints
    ensures c.minMw <= ScanPoint(c, i) <= c.maxMw
    ensures i == 0 ==> ScanPoint(c, i) == c.minMw
    ensures i == c.coarseScanPoints - 1 ==> ScanPoint(c, i) == c.maxMw
  {
    var width, n := c.maxMw - c.minMw, (c.coarseScanPoints - 1) as real;
    FractionBounds(width, i as real, n);
  }

  /** ... and are evenly spaced. */
  lemma ScanSpacing(c: SearchConfig, i: nat)
    requires c.coarseScanPoints >= 2 && i + 1 < c.coarseScanPoints
    ensures (ScanPoint(c, i + 1) - ScanPoint(c, i)) * ((c.coarseScanPoints - 1) as real) == c.maxMw - c.minMw
  {
    Spacing(c.maxMw - c.minMw, i as real, (c.coarseScanPoints - 1) as real);
  }

  lemma Spacing(width: real, i: real, n: real)
    requires n > 0.0
    ensures (width * (i + 1.0) / n - width * i / n) * n == width
  {
    var a, b := width * (i + 1.0) / n, width * i / n;
    assert a * n == width * (i + 1.0) && b * n == width * i;
    assert (a - b) * n == a * n - b * n;
  }

  lemma FractionBounds(width: real, i: real, n: real)
    requires width >= 0.0 && 0.0 <= i <= n && n > 0.0
    ensures 0.0 <= width * i / n <= width
    ensures i == 0.0 ==> width * i / n == 0.0
    ensures i == n ==> width * i / n == width
  {
  }

  lemma ScaleStrict(a: real, b: real, n: real)
    requires a < b && n > 0.0
    ensures a * n < b * n
  {
    assert b * n - a * n == (b - a) * n > 0.0;
  }

  lemma ScanKeysNext(c: SearchConfig, key: real -> int, n: nat)
    requires c.coarseScanPoints >= 2
    ensures ScanKeys(c, key, n + 1) == ScanKeys(c, key, n) + {key(ScanPoint(c, n))}
  {
  }

  lemma {:induction false} DistinctElements(s: seq<int>)
    requires Distinct(s)
    ensures |set x | x in s| == |s|
  {
    if s != [] {
      var front, last := s[..|s| - 1], s[|s| - 1];
      DistinctElements(front);
      assert (set x | x in s) == (set x | x in front) + {last};
    }
  }

  /** With distinct keys the scan keys number as many as the points. */
  lemma ScanKeysCount(c: SearchConfig, key: real -> int, n: nat)
    requires c.coarseScanPoints >= 2
    requires forall i, j | 0 <= i < j < n :: key(ScanPoint(c, i)) != key(ScanPoint(c, j))
    ensures |ScanKeys(c, key, n)| == n
  {
    var keys := seq(n, i requires 0 <= i < n => key(ScanPoint(c, i)));
    DistinctElements(keys);
    forall x ensures x in ScanKeys(c, key, n) <==> x in keys {
      if x in ScanKeys(c, key, n) {
        var i :| 0 <= i < n && x == key(ScanPoint(c, i));
        assert keys[i] == x;
      }
    }
    assert ScanKeys(c, key, n) == set x | x in keys;
  }

  // ---- bisection ----

  /** Points further apart than half the tolerance never share a key. */
  ghost predicate Separates(key: real -> int, tolerance: real) {
    forall x: real, y: real | y - x > tolerance / 2.0 :: key(x) != key(y)
  }

  // Progress of the loop: the bracket has been halved once per fresh sample.
  ghost predicate Halved(c: SearchConfig, count: nat, width: real, iterations: nat) {
    && 2 <= count <= iterations + 2
    && width * Pow2(count - 2) == c.maxMw - c.minMw
    && (iterations == count - 2 || width > c.toleranceMw)
    && (count > 2 ==> 2.0 * width > c.toleranceMw)
  }

  lemma BisectStep(memo: (seq<Sample>, map<int, Sample>), take: Sampler, key: real -> int, lo: Sample, up: Sample, s: Sample,
                   after: (seq<Sample>, map<int, Sample>))
    requires KeyMonotone(key) && Bisecting(memo.0, memo.1, take, key, lo, up)
    requires MemoOk(after.0, after.1, take, key)
    requires var mid := (lo.mw + up.mw) / 2.0;
      if key(mid) in memo.1 then s == memo.1[key(mid)] && after == memo
      else s == take(mid) && after.0 == memo.0 + [s]
    ensures Bisecting(after.0, after.1, take, key, if s.accepted then s else lo, if s.accepted then up else s)
    ensures var width := (if s.accepted then up.mw else s.mw) - (if s.accepted then s.mw else lo.mw);
      if key((lo.mw + up.mw) / 2.0) in memo.1 then width == up.mw - lo.mw else width == (up.mw - lo.mw) / 2.0
  {
  }

  lemma FreshMidpoint(samples: seq<Sample>, byKey: map<int, Sample>, take: Sampler, key: real -> int, lo: Sample, up: Sample, tolerance: real)
    requires KeyMonotone(key) && Bisecting(samples, byKey, take, key, lo, up)
    requires Separates(key, tolerance) && up.mw - lo.mw > tolerance
    ensures key((lo.mw + up.mw) / 2.0) !in byKey
  {
  }

  lemma HalvedStep(c: SearchConfig, count: nat, width: real, iterations: nat)
    requires Halved(c, count, width, iterations) && width > c.toleranceMw
    ensures Halved(c, count, width, iterations + 1)
    ensures iterations == count - 2 ==> Halved(c, count + 1, width / 2.0, iterations + 1)
  {
    HalvingStep(width, count - 2);
  }

  ghost predicate SearchInv(c: SearchConfig, samples: seq<Sample>, byKey: map<int, Sample>, take: Sampler, key: real -> int,
                            lo: Sample, up: Sample, iterations: nat)
  {
    && Bisecting(samples, byKey, take, key, lo, up)
    && InBounds(c, samples)
    && Halved(c, |samples|, up.mw - lo.mw, iterations)
    && (iterations > |samples| - 2 ==> key((lo.mw + up.mw) / 2.0) in byKey)
    && (Separates(key, c.toleranceMw) ==> iterations == |samples| - 2)
  }

  lemma SearchStep(c: SearchConfig, memo: (seq<Sample>, map<int, Sample>), take: Sampler, key: real -> int, lo: Sample, up: Sample,
                   iterations: nat, s: Sample, after: (seq<Sample>, map<int, Sample>))
    requires KeyMonotone(key) && SearchInv(c, memo.0, memo.1, take, key, lo, up, iterations)
    requires up.mw - lo.mw > c.toleranceMw && MemoOk(after.0, after.1, take, key)
    requires var mid := (lo.mw + up.mw) / 2.0;
      if key(mid) in memo.1 then s == memo.1[key(mid)] && after == memo
      else s == take(mid) && after.0 == memo.0 + [s]
    ensures SearchInv(c, after.0, after.1, take, key, if s.accepted then s else lo, if s.accepted then up else s, iterations + 1)
  {
    BisectStep(memo, take, key, lo, up, s, after);
    HalvedStep(c, |memo.0|, up.mw - lo.mw, iterations);
    if Separates(key, c.toleranceMw) {
      FreshMidpoint(memo.0, memo.1, take, key, lo, up, c.toleranceMw);
    }
    if key((lo.mw + up.mw) / 2.0) in memo.1 {
      HitIsBound(memo.0, memo.1, take, key, lo, up, (lo.mw + up.mw) / 2.0);
    }
  }

  lemma SearchDone(c: SearchConfig, samples: seq<Sample>, key: real -> int, lo: Sample, up: Sample, iterations: nat, r: SearchResult)
    requires Bracketing(samples, lo, up) && Halved(c, |samples|, up.mw - lo.mw, iterations) && iterations <= c.maxIterations
    requires up.mw - lo.mw > c.toleranceMw ==> iterations == c.maxIterations
    requires r == MakeResult(c, if up.mw - lo.mw <= c.toleranceMw then Bounded else IterationLimit,
      Some(lo.mw), Some(lo.mw), Some(up.mw), iterations, samples, Some(lo), Some(up), 0, [])
    ensures true == Brackets(r, samples) && true == Attained(c, key, r, samples) && true == BisectionReport(c, r, samples)
  {
  }

  /** One pass of the loop: evaluate the midpoint and consult the monitor. */
  method BisectRound(c: SearchConfig, memo: Memo, lo: Sample, up: Sample, ghost iterations: nat) returns (r: Result<Sample, string>)
    requires KeyMonotone(memo.key) && memo.Valid()
    requires SearchInv(c, memo.samples, memo.byKey, memo.take, memo.key, lo, up, iterations)
    requires up.mw - lo.mw > c.toleranceMw
    modifies memo
    ensures memo.Valid()
    ensures r.Err? ==> RaisedWithin(c, memo.raises, r.error)
    ensures r.Ok? ==> SearchInv(c, memo.samples, memo.byKey, memo.take, memo.key,
      if r.value.accepted then r.value else lo, if r.value.accepted then up else r.value, iterations + 1)
  {
    ghost var before := (memo.samples, memo.byKey);
    var midpoint := (lo.mw + up.mw) / 2.0;
    assert c.minMw <= midpoint <= c.maxMw;
    r := memo.Evaluate(midpoint);
    if r.Err? {
      return;
    }
    var s := r.value;
    SearchStep(c, before, memo.take, memo.key, lo, up, iterations, s, (memo.samples, memo.byKey));
    BisectingIsMonotone(memo.samples, memo.byKey, memo.take, memo.key, if s.accepted then s else lo, if s.accepted then up else s);
    var contradictions := MonotonicityContradictions(memo.samples);
    if contradictions != [] {
      // The source restarts the coarse scan here; no oracle and no monotone key lead to this line.
      assert false;
    }
  }

  // What the bisection reports over the samples it ends with.
  ghost predicate BisectedReport(c: SearchConfig, key: real -> int, r: SearchResult, samples: seq<Sample>) {
    && (r.status.Bounded? || r.status.IterationLimit?) && InBounds(c, samples)
    && r.samples == LimitItems(Sort(samples, MwLe), c.maxSamples) && r.contradictions == []
    && Brackets(r, samples) && Attained(c, key, r, samples) && BisectionReport(c, r, samples)
  }

  /** The bisection loop of `run`, from an accepted lower and a rejected upper end. */
  method Bisect(c: SearchConfig, memo: Memo, lower: Sample, upper: Sample) returns (r: Result<SearchResult, string>)
    requires BoundsError(c).None? && KeyMonotone(memo.key) && memo.Valid()
    requires Bisecting(memo.samples, memo.byKey, memo.take, memo.key, lower, upper)
    requires lower.mw == c.minMw && upper.mw == c.maxMw && |memo.samples| == 2 && InBounds(c, memo.samples)
    modifies memo
    ensures memo.Valid()
    ensures r.Err? ==> RaisedWithin(c, memo.raises, r.error)
    ensures r.Ok? ==> BisectedReport(c, memo.key, r.value, memo.samples)
    ensures r.Ok? && Separates(memo.key, c.toleranceMw) ==> r.value.iterations == |memo.samples| - 2
  {
    var best, first := lower, upper;
    var lowerMw, upperMw := c.minMw, c.maxMw;
    var iterations: nat := 0;
    assert Pow2(0) == 1.0;
    while upperMw - lowerMw > c.toleranceMw && iterations < c.maxIterations
      invariant memo.Valid()
      invariant true == SearchInv(c, memo.samples, memo.byKey, memo.take, memo.key, best, first, iterations)
      invariant lowerMw == best.mw && upperMw == first.mw && iterations <= c.maxIterations
      decreases c.maxIterations - iterations
    {
      var evaluated := BisectRound(c, memo, best, first, iterations);
      if evaluated.Err? {
        return Err(evaluated.error);
      }
      var sample := evaluated.value;
      if sample.accepted {
        lowerMw, best := sample.mw, sample;
      } else {
        upperMw, first := sample.mw, sample;
      }
      iterations := iterations + 1;
    }
    var status := if upperMw - lowerMw <= c.toleranceMw then Bounded else IterationLimit;
    var result := MakeResult(c, status, Some(best.mw), Some(lowerMw), Some(upperMw), iterations, memo.samples, Some(best), Some(first), 0, []);
    SearchDone(c, memo.samples, memo.key, best, first, iterations, result);
    r := Ok(result);
  }

  lemma ScannedWithin(c: SearchConfig, before: seq<Sample>, after: seq<Sample>)
    requires BoundsError(c).None? && ScannedOnly(c, before, after) && InBounds(c, before)
    ensures InBounds(c, after)
  {
    forall s | s in after ensures c.minMw <= s.mw <= c.maxMw {
      if s !in before {
        var i: nat :| i < c.coarseScanPoints && s.mw == ScanPoint(c, i);
        ScanPointRange(c, i);
      }
    }
  }

  /** When the greatest sample is accepted, it is the best one and nothing is rejected above it. */
  lemma TopSampleWins(samples: seq<Sample>, top: Sample)
    requires DistinctMw(samples) && top in samples && top.accepted && forall s | s in samples :: s.mw <= top.mw
    ensures Greatest(Filter(samples, IsAccepted)) == Some(top)
    ensures Least(Filter(samples, RejectedAbove(Some(top)))) == None
  {
  }

  lemma ScanKeysEnds(c: SearchConfig, key: real -> int)
    requires BoundsError(c).None?
    ensures key(c.minMw) in ScanKeys(c, key, c.coarseScanPoints) && key(c.maxMw) in ScanKeys(c, key, c.coarseScanPoints)
  {
    ScanPointRange(c, 0);
    ScanPointRange(c, c.coarseScanPoints - 1);
  }

  lemma MemoSampled(samples: seq<Sample>, byKey: map<int, Sample>, take: Sampler, key: real -> int)
    requires MemoOk(samples, byKey, take, key)
    ensures Sampled(samples, take, key) && |samples| == |byKey.Keys|
  {
  }

  lemma FallbackConclusion(c: SearchConfig, take: Sampler, key: real -> int, low: Sample, high: Sample,
                           samples: seq<Sample>, byKey: map<int, Sample>)
    requires BoundsError(c).None? && MemoOk(samples, byKey, take, key)
    requires low.mw == c.minMw && high.mw == c.maxMw && high.accepted
    requires [low, high] <= samples && ScannedOnly(c, [low, high], samples)
    requires byKey.Keys == {key(c.minMw), key(c.maxMw)} + ScanKeys(c, key, c.coarseScanPoints)
    ensures Greatest(Filter(samples, IsAccepted)) == Some(high) && high in samples
    ensures Least(Filter(samples, RejectedAbove(Some(high)))) == None
    ensures InBounds(c, samples)
  {
    assert forall s | s in [low, high] :: s == low || s == high;
    ScannedWithin(c, [low, high], samples);
    MemoDistinct(samples, byKey, take, key);
    assert high == [low, high][1] == samples[1];
    TopSampleWins(samples, high);
  }

  lemma FallbackCount(c: SearchConfig, take: Sampler, key: real -> int, samples: seq<Sample>, byKey: map<int, Sample>)
    requires BoundsError(c).None? && MemoOk(samples, byKey, take, key)
    requires byKey.Keys == {key(c.minMw), key(c.maxMw)} + ScanKeys(c, key, c.coarseScanPoints)
    ensures |samples| == |ScanKeys(c, key, c.coarseScanPoints)|
  {
    ScanKeysEnds(c, key);
    assert byKey.Keys == ScanKeys(c, key, c.coarseScanPoints);
    MemoSampled(samples, byKey, take, key);
  }

  // ---- the whole run ----

  /** The properties of a run that do not depend on its status. */
  ghost predicate RunReport(c: SearchConfig, take: Sampler, key: real -> int, r: SearchResult, trace: seq<Sample>)
    requires c.coarseScanPoints >= 2
  {
    && Sampled(trace, take, key) && InBounds(c, trace)
    && r.samples == LimitItems(Sort(trace, MwLe), c.maxSamples)
    && StatusTable(c, take, key, r.status)
    && Attained(c, key, r, trace)
    && r.contradictions == (if r.status.MonotonicityFallback? then [EndPair(c, take)] else [])
    && (if r.status.MonotonicityFallback? then FallbackReport(c, key, r, trace) else Brackets(r, trace))
    && (r.status.Bounded? || r.status.IterationLimit? ==> BisectionReport(c, r, trace))
    && (r.status.MinBoundRejected? ==> r.upperBoundMw == Some(c.minMw) && r.lowerBoundMw == None)
    && (r.status.MaxBoundApproved? ==> r.lowerBoundMw == Some(c.maxMw) && r.upperBoundMw == None)
    && (r.status.MinBoundRejected? || r.status.MaxBoundApproved? ==> r.iterations == 0 && forall s | s in trace :: s.mw == c.minMw || s.mw == c.maxMw)
  }

  // The state after both ends have been evaluated.
  ghost predicate Ends(c: SearchConfig, take: Sampler, key: real -> int, samples: seq<Sample>, byKey: map<int, Sample>, low: Sample, high: Sample) {
    && MemoOk(samples, byKey, take, key)
    && byKey.Keys == {key(c.minMw), key(c.maxMw)}
    && low == take(c.minMw)
    && (if SameKey(c, key) then high == low && samples == [low]
        else high == take(c.maxMw) && samples == [low, high])
  }

  method EvaluateEnds(c: SearchConfig, memo: Memo) returns (r: Result<(Sample, Sample), string>)
    requires c.minMw <= c.maxMw && memo.Valid() && memo.samples == [] && memo.byKey == map[]
    modifies memo
    ensures memo.Valid()
    ensures r.Err? ==> RaisedWithin(c, memo.raises, r.error)
    ensures r.Ok? ==> memo.raises(c.minMw).None? && Ends(c, memo.take, memo.key, memo.samples, memo.byKey, r.value.0, r.value.1)
  {
    var low := memo.Evaluate(c.minMw);
    if low.Err? {
      return Err(low.error);
    }
    var high := memo.Evaluate(c.maxMw);
    if high.Err? {
      return Err(high.error);
    }
    r := Ok((low.value, high.value));
  }

  lemma EndsMonotone(c: SearchConfig, take: Sampler, key: real -> int, samples: seq<Sample>, byKey: map<int, Sample>, low: Sample, high: Sample)
    requires BoundsError(c).None? && Ends(c, take, key, samples, byKey, low, high)
    ensures DistinctMw(samples)
    ensures !SameKey(c, key) ==> c.minMw < c.maxMw
    ensures !Monotone(samples) <==> !low.accepted && high.accepted && !SameKey(c, key)
    ensures EndSamples(c, take, key, samples, low, high) && InBounds(c, samples)
  {
    MemoDistinct(samples, byKey, take, key);
    MemoSampled(samples, byKey, take, key);
    assert low in samples && high in samples;
    assert forall s | s in samples :: s == low || s == high;
  }

  ghost predicate EndSamples(c: SearchConfig, take: Sampler, key: real -> int, samples: seq<Sample>, low: Sample, high: Sample) {
    && Sampled(samples, take, key) && low in samples && high in samples && (forall s | s in samples :: s == low || s == high)
    && low == take(c.minMw) && low.mw == c.minMw
    && (if SameKey(c, key) then high == low else high == take(c.maxMw) && high.mw == c.maxMw)
  }

  // The result decided by the ends alone: the lower end is rejected, or else the upper end is accepted.
  function EndResult(c: SearchConfig, samples: seq<Sample>, low: Sample, high: Sample): SearchResult {
    if !low.accepted then
      MakeResult(c, MinBoundRejected, None, None, Some(c.minMw), 0, samples, None, Some(low), 0, [])
    else
      MakeResult(c, MaxBoundApproved, Some(c.maxMw), Some(c.maxMw), None, 0, samples, Some(high), None, 0, [])
  }

  lemma EndReport(c: SearchConfig, take: Sampler, key: real -> int, samples: seq<Sample>, low: Sample, high: Sample)
    requires BoundsError(c).None?
    requires true == EndSamples(c, take, key, samples, low, high)
    requires (!low.accepted && (high.accepted ==> SameKey(c, key))) || (low.accepted && high.accepted)
    ensures true == RunReport(c, take, key, EndResult(c, samples, low, high), samples)
  {
    var r := EndResult(c, samples, low, high);
    assert InBounds(c, samples) && StatusTable(c, take, key, r.status);
    assert Attained(c, key, r, samples) && Brackets(r, samples);
  }

  lemma BisectionEndReport(c: SearchConfig, take: Sampler, key: real -> int, low: Sample, high: Sample, trace: seq<Sample>, r: SearchResult)
    requires BoundsError(c).None? && Sampled(trace, take, key) && InBounds(c, trace)
    requires low == take(c.minMw) && high == take(c.maxMw) && low.accepted && !high.accepted && !SameKey(c, key)
    requires r.status.Bounded? || r.status.IterationLimit?
    requires r.samples == LimitItems(Sort(trace, MwLe), c.maxSamples) && r.contradictions == []
    requires Brackets(r, trace) && Attained(c, key, r, trace) && BisectionReport(c, r, trace)
    ensures RunReport(c, take, key, r, trace)
  {
  }

  lemma FallbackEndReport(c: SearchConfig, take: Sampler, key: real -> int, low: Sample, high: Sample, trace: seq<Sample>, r: SearchResult)
    requires BoundsError(c).None? && Sampled(trace, take, key) && InBounds(c, trace)
    requires low == take(c.minMw) && high == take(c.maxMw) && !low.accepted && high.accepted && !SameKey(c, key)
    requires r.status.MonotonicityFallback? && r.samples == LimitItems(Sort(trace, MwLe), c.maxSamples)
    requires FallbackReport(c, key, r, trace) && r.best == Some(high) && high in trace && high.mw == c.maxMw
    requires r.contradictions == [EndPair(c, take)]
    ensures RunReport(c, take, key, r, trace)
  {
  }

  /** The fallback branch of `run`, taken when the lower end is rejected and the upper end accepted. */
  method RunFallback(c: SearchConfig, memo: Memo, low: Sample, high: Sample, contradictions: seq<Contradiction>)
    returns (r: Result<SearchResult, string>)
    requires BoundsError(c).None? && memo.Valid() && Ends(c, memo.take, memo.key, memo.samples, memo.byKey, low, high)
    requires contradictions == [EndPair(c, memo.take)] && !SameKey(c, memo.key) && !low.accepted && high.accepted
    modifies memo
    ensures memo.Valid()
    ensures r.Err? ==> RaisedWithin(c, memo.raises, r.error)
    ensures r.Ok? ==> RunReport(c, memo.take, memo.key, r.value, memo.samples) && r.value.status.MonotonicityFallback?
  {
    r := FallbackScanResult(c, memo, contradictions, 0);
    if r.Ok? {
      FallbackConclusion(c, memo.take, memo.key, low, high, memo.samples, memo.byKey);
      FallbackCount(c, memo.take, memo.key, memo.samples, memo.byKey);
      MemoSampled(memo.samples, memo.byKey, memo.take, memo.key);
      FallbackEndReport(c, memo.take, memo.key, low, high, memo.samples, r.value);
    }
  }

  /** The bisection branch of `run`. */
  method RunBisection(c: SearchConfig, memo: Memo, low: Sample, high: Sample) returns (r: Result<SearchResult, string>)
    requires BoundsError(c).None? && KeyMonotone(memo.key) && memo.Valid()
    requires Ends(c, memo.take, memo.key, memo.samples, memo.byKey, low, high)
    requires !SameKey(c, memo.key) && low.accepted && !high.accepted
    modifies memo
    ensures memo.Valid()
    ensures r.Err? ==> RaisedWithin(c, memo.raises, r.error)
    ensures r.Ok? ==> RunReport(c, memo.take, memo.key, r.value, memo.samples)
    ensures r.Ok? && Separates(memo.key, c.toleranceMw) ==> r.value.iterations == |memo.samples| - 2
  {
    EndsMonotone(c, memo.take, memo.key, memo.samples, memo.byKey, low, high);
    r := Bisect(c, memo, low, high);
    if r.Ok? {
      MemoSampled(memo.samples, memo.byKey, memo.take, memo.key);
      BisectionEndReport(c, memo.take, memo.key, low, high, memo.samples, r.value);
    }
  }

  /** The decision after both ends have been evaluated. (An equation keeps the report one fact for the verifier.) */
  method Conclude(c: SearchConfig, memo: Memo, low: Sample, high: Sample) returns (r: Result<SearchResult, string>)
    requires BoundsError(c).None? && KeyMonotone(memo.key) && memo.Valid()
    requires Ends(c, memo.take, memo.key, memo.samples, memo.byKey, low, high)
    modifies memo
    ensures memo.Valid()
    ensures r.Err? ==> RaisedWithin(c, memo.raises, r.error)
    ensures r.Ok? ==> true == RunReport(c, memo.take, memo.key, r.value, memo.samples)
    ensures r.Ok? && ByBisection(r.value) && Separates(memo.key, c.toleranceMw) ==> r.value.iterations == |memo.samples| - 2
  {
    EndsMonotone(c, memo.take, memo.key, memo.samples, memo.byKey, low, high);
    var contradictions := MonotonicityContradictions(memo.samples);
    assert contradictions != [] <==> !low.accepted && high.accepted && !SameKey(c, memo.key);
    if contradictions != [] {
      EndsContradict(low, high);
      r := RunFallback(c, memo, low, high, contradictions);
    } else if !low.accepted || high.accepted {
      r := Ok(EndResult(c, memo.samples, low, high));
      EndReport(c, memo.take, memo.key, memo.samples, low, high);
    } else {
      r := RunBisection(c, memo, low, high);
    }
  }

  predicate ByBisection(r: SearchResult) { r.status.Bounded? || r.status.IterationLimit? }

  /** `CapacitySearchRunner.run` over any sampler and any monotone memo key; `trace` is the full list of
      samples behind the possibly truncated report. */
  method Search(c: SearchConfig, take: Sampler, raises: Raising, key: real -> int)
    returns (r: Result<SearchResult, string>, ghost trace: seq<Sample>)
    requires KeepsSize(take) && KeyMonotone(key)
    ensures BoundsError(c).Some? ==> r == Err(BoundsError(c).value)
    ensures r.Err? && BoundsError(c).None? ==> RaisedWithin(c, raises, r.error)
    ensures r.Ok? ==> BoundsError(c).None? && raises(c.minMw).None? && NothingRaised(trace, raises)
    ensures r.Ok? ==> RunReport(c, take, key, r.value, trace)
    ensures r.Ok? && ByBisection(r.value) && Separates(key, c.toleranceMw) ==> r.value.iterations == |trace| - 2
  {
    trace := [];
    var error := BoundsError(c);
    if error.Some? {
      return Err(error.value), trace;
    }
    var memo := new Memo(take, raises, key);
    var ends := EvaluateEnds(c, memo);
    if ends.Err? {
      return Err(ends.error), trace;
    }
    r := Conclude(c, memo, ends.value.0, ends.value.1);
    trace := memo.samples;
  }

  // ---- consequences ----

  lemma Round9Key(tolerance: real)
    ensures KeyMonotone(Round9)
    ensures tolerance >= 0.000000002 ==> Separates(Round9, tolerance)
  {
  }

  /** `CapacitySearchRunner.run` with its own memo key, `round(mw, 9)`. */
  method Run(c: SearchConfig, cia: Oracle) returns (r: Result<SearchResult, string>, ghost trace: seq<Sample>)
    ensures BoundsError(c).Some? ==> r == Err(BoundsError(c).value)
    ensures r.Err? && BoundsError(c).None? ==> RaisedWithin(c, RaisingOf(cia), r.error)
    ensures r.Ok? ==> BoundsError(c).None? && cia(c.minMw).Ok? && NothingRaised(trace, RaisingOf(cia))
    ensures r.Ok? ==> RunReport(c, Sampling(cia), Round9, r.value, trace)
    ensures r.Ok? && ByBisection(r.value) && c.toleranceMw >= 0.000000002 ==> r.value.iterations == |trace| - 2
  {
    SamplingKeepsSize(cia);
    Round9Key(c.toleranceMw);
    r, trace := Search(c, Sampling(cia), RaisingOf(cia), Round9);
  }

  lemma {:induction false} Pow2Monotone(j: nat, k: nat)
    requires j <= k
    ensures 1.0 <= Pow2(j) <= Pow2(k)
    decreases k
  {
    if k > 0 {
      if j < k {
        Pow2Monotone(j, k - 1);
      } else {
        Pow2Monotone(j - 1, k - 1);
      }
    }
  }

  lemma ProductMonotone(a: real, b: real, x: real, y: real)
    requires 0.0 <= a <= b && 0.0 <= x <= y
    ensures a * x <= b * y
  {
    assert a * x <= b * x <= b * y;
  }

  /** When every iteration took a fresh sample, the loop runs into its limit exactly when that many halvings
      of the interval do not reach the tolerance ... */
  lemma LimitOnlyIfTooWide(c: SearchConfig, r: SearchResult, trace: seq<Sample>)
    requires BoundsError(c).None? && BisectionReport(c, r, trace) && r.iterations == |trace| - 2
    requires r.status.Bounded? || r.status.IterationLimit?
    ensures r.status.Bounded? <==> c.maxMw - c.minMw <= c.toleranceMw * Pow2(r.iterations)
    ensures r.status.IterationLimit? <==> c.maxMw - c.minMw > c.toleranceMw * Pow2(c.maxIterations)
  {
    var width := r.upperBoundMw.value - r.lowerBoundMw.value;
    WidthDecides(c.maxMw - c.minMw, width, c.toleranceMw, r.iterations);
    Pow2Monotone(r.iterations, c.maxIterations);
    ProductMonotone(c.toleranceMw, c.toleranceMw, Pow2(r.iterations), Pow2(c.maxIterations));
  }

  /** ... and stops at the least number of halvings that does. */
  lemma StopsAtLeastHalving(c: SearchConfig, r: SearchResult, trace: seq<Sample>, k: nat)
    requires BoundsError(c).None? && BisectionReport(c, r, trace) && r.iterations == |trace| - 2
    requires k < r.iterations
    ensures c.maxMw - c.minMw > c.toleranceMw * Pow2(k)
  {
    EarlierTooWide(c.maxMw - c.minMw, r.upperBoundMw.value - r.lowerBoundMw.value, c.toleranceMw, r.iterations, k);
  }

  lemma WidthDecides(total: real, width: real, tolerance: real, n: nat)
    requires 0.0 < width && 0.0 < tolerance && width * Pow2(n) == total
    ensures width <= tolerance <==> total <= tolerance * Pow2(n)
  {
    Pow2Monotone(0, n);
    if width <= tolerance {
      ProductMonotone(width, tolerance, Pow2(n), Pow2(n));
    } else {
      ScaleStrict(tolerance, width, Pow2(n));
    }
  }

  lemma EarlierTooWide(total: real, width: real, tolerance: real, n: nat, k: nat)
    requires 0.0 < tolerance < 2.0 * width && width * Pow2(n) == total && k < n
    ensures total > tolerance * Pow2(k)
  {
    Pow2Monotone(k, n - 1);
    TooWide(total, width, tolerance, Pow2(n - 1), Pow2(k));
  }

  lemma TooWide(total: real, width: real, tolerance: real, p: real, q: real)
    requires 0.0 < tolerance < 2.0 * width && total == width * (2.0 * p) && 0.0 < q <= p
    ensures total > tolerance * q
  {
  }

  /** Between the two sizes every size below an accepted one is accepted. */
  ghost predicate DownwardClosed(take: Sampler, low: real, high: real) {
    forall x: real, y: real | low <= x <= y <= high && take(y).accepted :: take(x).accepted
  }

  /** If acceptance is downward closed from the lower bound up to some size beyond the upper one, every project in that
      range up to the reported lower bound is acceptable and none from the reported upper bound on is. */
  lemma LimitIsBracketed(c: SearchConfig, take: Sampler, key: real -> int, r: SearchResult, trace: seq<Sample>, top: real, x: real)
    requires BoundsError(c).None? && RunReport(c, take, key, r, trace)
    requires c.maxMw <= top && DownwardClosed(take, c.minMw, top) && c.minMw <= x <= top
    ensures !r.status.MonotonicityFallback?
    ensures r.upperBoundMw.Some? && x >= r.upperBoundMw.value ==> !take(x).accepted
    ensures r.best.Some? && x <= r.best.value.mw ==> take(x).accepted
    ensures r.lowerBoundMw.Some? && r.best.value.mw != r.lowerBoundMw.value ==> SameKey(c, key)
    ensures r.status.Bounded? ==> r.upperBoundMw.value - r.lowerBoundMw.value <= c.toleranceMw
  {
    assert take(c.maxMw).accepted ==> take(c.minMw).accepted;
    if r.best.Some? {
      assert r.best.value == take(r.best.value.mw);
    }
    if r.firstRejected.Some? {
      assert r.firstRejected.value == take(r.firstRejected.value.mw);
      assert r.firstRejected.value.mw == r.upperBoundMw.value;
    }
  }

  /** A fallback scan over points with pairwise distinct keys takes a fresh sample at all but the two ends. */
  lemma FallbackScanCost(c: SearchConfig, key: real -> int, r: SearchResult, trace: seq<Sample>)
    requires BoundsError(c).None? && FallbackReport(c, key, r, trace)
    requires forall i, j | 0 <= i < j < c.coarseScanPoints :: key(ScanPoint(c, i)) != key(ScanPoint(c, j))
    ensures r.scanEvaluations == c.coarseScanPoints - 2
  {
    ScanKeysCount(c, key, c.coarseScanPoints);
  }

  /** With both ends under one key the upper end is reported as approved on the strength of the lower end alone. */
  lemma MergedEndsReportUnsampled(c: SearchConfig, take: Sampler, key: real -> int, r: SearchResult, trace: seq<Sample>)
    requires BoundsError(c).None? && KeepsSize(take) && RunReport(c, take, key, r, trace)
    requires r.status.MaxBoundApproved?
    ensures (exists s | s in trace :: s.mw == c.maxMw) <==> !SameKey(c, key) || c.minMw == c.maxMw
  {
    assert r.best.value in trace;
  }

  /** Points 4e-10 apart are such ends: both round to 0. */
  lemma MergedEndsExample()
    ensures forall maxIterations, points, maxSamples ::
      SameKey(SearchConfig(0.0, 0.0000000004, 1.0, maxIterations, points, maxSamples), Round9)
  {
    assert 0.0000000004 * NANO == 0.4;
    RoundHalfEvenUnique(0.4, 0);
    RoundHalfEvenUnique(0.0, 0);
  }

  /** The assessment at one size, as the search calls it: steady state and, if enabled, N-1 only. */
  function CiaAt(grid: Grid, c: Connection, opts: Cia.CiaOptions, repr: Cia.Repr): Oracle
    requires !opts.enableTransient && !opts.enableEmt
  {
    mw => Cia.Run(grid, c.(pMw := mw), opts, repr)
  }

  /** The network takes a project of this size: everything solves, every finding was there before, and (if screened)
      every outage that fails failed the same way without the project. */
  ghost predicate CleanAt(grid: Grid, c: Connection, opts: Cia.CiaOptions, mw: real) {
    Cia.SteadyClean(grid, c.(pMw := mw), opts.threshold)
    && (opts.enableContingency ==> Cia.ContingencyClean(grid, c.(pMw := mw), opts))
  }

  /** A sample is accepted exactly when the network converges with and without the project, every finding was
      there before, and (if screened) no N-1 failure is blamed on the project. */
  lemma AcceptedSampleMeaning(grid: Grid, c: Connection, opts: Cia.CiaOptions, repr: Cia.Repr, mw: real)
    requires !opts.enableTransient && !opts.enableEmt && C.Injective(repr)
    ensures Sampling(CiaAt(grid, c, opts, repr))(mw).accepted <==> CleanAt(grid, c, opts, mw)
  {
    Cia.ApprovalIsExact(grid, c.(pMw := mw), opts, repr);
    var report := CiaAt(grid, c, opts, repr)(mw);
    assert Sampling(CiaAt(grid, c, opts, repr))(mw) == SampleOf(mw, report);
  }

  /** A size that is not taken is explained by the baseline that diverges, by the steady-state stage where the project's
      own power flow diverges or some finding was not there before, and otherwise by the N-1 stage. */
  lemma RejectedSampleMeaning(grid: Grid, c: Connection, opts: Cia.CiaOptions, repr: Cia.Repr, mw: real)
    requires !opts.enableTransient && !opts.enableEmt && C.Injective(repr) && CiaAt(grid, c, opts, repr)(mw).Ok?
    requires !CleanAt(grid, c, opts, mw)
    ensures var explanation := Sampling(CiaAt(grid, c, opts, repr))(mw).limiting; var at := c.(pMw := mw);
      && explanation.Some?
      && (if grid.flow(None, None).Diverged? then explanation.value == BaselineSummary(grid.flow(None, None).error)
          else
            && explanation.value.StageSummary?
            && explanation.value.stage.name ==
                 (if Cia.PostDiverges(grid, at) || Cia.Caused(grid, at, opts.threshold) then F1SteadyState else F2Contingency)
            && explanation.value.stage.status in {Fail, BorderlineStatus})
  {
    var at := c.(pMw := mw);
    var result := CiaAt(grid, c, opts, repr)(mw);
    AcceptedSampleMeaning(grid, c, opts, repr, mw);
    assert Sampling(CiaAt(grid, c, opts, repr))(mw) == SampleOf(mw, result);
    Cia.OnlyBaselineFails(grid, at, opts, repr);
    if Cia.PostDiverges(grid, at) {
      Cia.DivergedReport(grid, at, opts, repr, F1SteadyState);
      RejectionMeaning(mw, result.value);
    } else if Cia.Solves(grid, at) {
      RejectedStages(grid, at, opts, repr);
    }
  }

  lemma RejectedStages(grid: Grid, c: Connection, opts: Cia.CiaOptions, repr: Cia.Repr)
    requires C.Injective(repr) && true == Cia.Solves(grid, c)
    requires true == Cia.Caused(grid, c, opts.threshold) || true == Cia.ContingencyFails(grid, c, opts)
    requires var r := Cia.Run(grid, c, opts, repr); r.Ok? && r.value.Report? && !r.value.recommendation.Approve?
    ensures var explanation := SampleFromReport(c.pMw, Cia.Run(grid, c, opts, repr).value).limiting;
      && explanation.Some? && explanation.value.StageSummary?
      && explanation.value.stage.name == (if true == Cia.Caused(grid, c, opts.threshold) then F1SteadyState else F2Contingency)
      && explanation.value.stage.status in {Fail, BorderlineStatus}
  {
    var stages := Cia.RunStages(grid, c, opts, repr);
    BadStages(grid, c, opts, stages);
    ExplainedBy(stages, c.pMw, if Cia.Caused(grid, c, opts.threshold) then 0 else 1);
  }

  lemma ExplainedBy(stages: seq<Stage>, mw: real, i: nat)
    requires i < |stages| && IsLimiting(stages[i]) && forall j: nat | j < i :: !IsLimiting(stages[j])
    requires !Cia.ReportOf(stages).recommendation.Approve?
    ensures SampleFromReport(mw, Cia.ReportOf(stages)).limiting == Some(StageSummary(stages[i]))
  {
    FirstLimiting(stages, i);
    assert Cia.ReportOf(stages).stages == stages;
  }

  lemma BadStages(grid: Grid, c: Connection, opts: Cia.CiaOptions, stages: seq<Stage>)
    requires |stages| == 4 && true == Cia.StagesOf(grid, c, opts, stages) && true == Cia.Solves(grid, c)
    requires true == Cia.Caused(grid, c, opts.threshold) || true == Cia.ContingencyFails(grid, c, opts)
    ensures stages[0].name == F1SteadyState && stages[1].name == F2Contingency
    ensures if true == Cia.Caused(grid, c, opts.threshold) then stages[0].status in {Fail, BorderlineStatus}
            else stages[0].status.Pass? && stages[1].status.Fail?
  {
  }

  // Whether the connection can be attached does not depend on its size.
  lemma RaisesAtEverySize(grid: Grid, c: Connection, opts: Cia.CiaOptions, repr: Cia.Repr, mw: real, mw': real)
    requires !opts.enableTransient && !opts.enableEmt && mw >= 0.0 && mw' >= 0.0
    ensures RaisingOf(CiaAt(grid, c, opts, repr))(mw) == RaisingOf(CiaAt(grid, c, opts, repr))(mw')
    ensures CiaAt(grid, c, opts, repr)(mw).Err? <==> grid.flow(None, None).Converged? && AttachError(grid, c.(pMw := mw)).Some?
  {
    Cia.OnlyBaselineFails(grid, c.(pMw := mw), opts, repr);
    Cia.OnlyBaselineFails(grid, c.(pMw := mw'), opts, repr);
    assert RaisingOf(CiaAt(grid, c, opts, repr))(mw) == ErrorOf(Cia.Run(grid, c.(pMw := mw), opts, repr));
    assert RaisingOf(CiaAt(grid, c, opts, repr))(mw') == ErrorOf(Cia.Run(grid, c.(pMw := mw'), opts, repr));
  }

  // The sizes a result rests on: the best approved sample is clean, the first rejected one is not.
  ghost predicate RestsOnNetwork(c: SearchConfig, grid: Grid, connection: Connection, opts: Cia.CiaOptions, r: SearchResult) {
    && (r.maxApprovedMw.Some? <==> r.best.Some?)
    && (r.best.Some? ==> CleanAt(grid, connection, opts, r.best.value.mw))
    && (r.best.Some? ==> (r.maxApprovedMw == Some(r.best.value.mw) <==>
          !(r.status.MaxBoundApproved? && SameKey(c, Round9) && c.minMw < c.maxMw)))
    && (r.upperBoundMw.Some? ==> !CleanAt(grid, connection, opts, r.upperBoundMw.value))
  }

  lemma ReportRestsOnNetwork(c: SearchConfig, grid: Grid, connection: Connection, opts: Cia.CiaOptions, repr: Cia.Repr,
                             r: SearchResult, trace: seq<Sample>)
    requires !opts.enableTransient && !opts.enableEmt && C.Injective(repr) && c.coarseScanPoints >= 2
    requires RunReport(c, Sampling(CiaAt(grid, connection, opts, repr)), Round9, r, trace)
    ensures RestsOnNetwork(c, grid, connection, opts, r)
  {
    var take := Sampling(CiaAt(grid, connection, opts, repr));
    if r.best.Some? {
      assert r.best.value == take(r.best.value.mw);
      AcceptedSampleMeaning(grid, connection, opts, repr, r.best.value.mw);
    }
    if r.firstRejected.Some? {
      assert r.firstRejected.value == take(r.firstRejected.value.mw);
      AcceptedSampleMeaning(grid, connection, opts, repr, r.firstRejected.value.mw);
    }
  }

  lemma RaisedOnGrid(c: SearchConfig, grid: Grid, connection: Connection, opts: Cia.CiaOptions, repr: Cia.Repr, error: string)
    requires !opts.enableTransient && !opts.enableEmt && BoundsError(c).None?
    requires RaisedWithin(c, RaisingOf(CiaAt(grid, connection, opts, repr)), error)
    ensures grid.flow(None, None).Converged? && AttachError(grid, connection.(pMw := c.minMw)).Some?
  {
    var cia := CiaAt(grid, connection, opts, repr);
    var mw: real :| c.minMw <= mw <= c.maxMw && RaisingOf(cia)(mw) == Some(error);
    RaisesAtEverySize(grid, connection, opts, repr, c.minMw, mw);
    assert RaisingOf(cia)(c.minMw) == ErrorOf(cia(c.minMw));
  }

  /** The search over the assessment itself: it raises exactly for an unsupported connection type, for invalid bounds, or
      when the baseline solves and the connection cannot be attached; the maximum it reports is a size the network
      takes, unless both ends share a key and only the lower one was evaluated. */
  method RunOnGrid(c: SearchConfig, grid: Grid, connection: Connection, opts: Cia.CiaOptions, repr: Cia.Repr)
    returns (r: Result<SearchResult, string>, ghost trace: seq<Sample>)
    requires !opts.enableTransient && !opts.enableEmt
    ensures r.Err? <==>
      (connection.connectionType !in CONNECTION_TYPES || BoundsError(c).Some?
       || (grid.flow(None, None).Converged? && AttachError(grid, connection.(pMw := c.minMw)).Some?))
    ensures r.Ok? ==> BoundsError(c).None? && RunReport(c, Sampling(CiaAt(grid, connection, opts, repr)), Round9, r.value, trace)
    ensures r.Ok? && C.Injective(repr) ==> RestsOnNetwork(c, grid, connection, opts, r.value)
    ensures r.Ok? && ByBisection(r.value) && c.toleranceMw >= 0.000000002 ==> r.value.iterations == |trace| - 2
  {
    if connection.connectionType !in CONNECTION_TYPES {
      return Err(UNSUPPORTED_TYPE), [];
    }
    r, trace := Run(c, CiaAt(grid, connection, opts, repr));
    if BoundsError(c).None? {
      RaisesAtEverySize(grid, connection, opts, repr, c.minMw, c.minMw);
      if r.Err? {
        RaisedOnGrid(c, grid, connection, opts, repr, r.error);
      } else if C.Injective(repr) {
        ReportRestsOnNetwork(c, grid, connection, opts, repr, r.value, trace);
      }
    }
  }

  /** Between the two sizes the network takes every size below one it takes. */
  ghost predicate CleanBelow(grid: Grid, connection: Connection, opts: Cia.CiaOptions, low: real, high: real) {
    forall x: real, y: real | low <= x <= y <= high && CleanAt(grid, connection, opts, y) :: CleanAt(grid, connection, opts, x)
  }

  /** What the search says about the network when smaller projects are no harder to take than larger ones: in the range
      that holds for, every size up to the best approved one is taken and none from the upper bound on is. */
  lemma LimitOnGrid(c: SearchConfig, grid: Grid, connection: Connection, opts: Cia.CiaOptions, repr: Cia.Repr,
                    r: SearchResult, trace: seq<Sample>, top: real, x: real)
    requires !opts.enableTransient && !opts.enableEmt && C.Injective(repr) && BoundsError(c).None?
    requires RunReport(c, Sampling(CiaAt(grid, connection, opts, repr)), Round9, r, trace)
    requires c.maxMw <= top && CleanBelow(grid, connection, opts, c.minMw, top) && c.minMw <= x <= top
    ensures !r.status.MonotonicityFallback?
    ensures r.upperBoundMw.Some? && x >= r.upperBoundMw.value ==> !CleanAt(grid, connection, opts, x)
    ensures r.best.Some? && x <= r.best.value.mw ==> CleanAt(grid, connection, opts, x)
    ensures r.status.Bounded? ==> r.upperBoundMw.value - r.lowerBoundMw.value <= c.toleranceMw
  {
    var take := Sampling(CiaAt(grid, connection, opts, repr));
    forall y: real ensures take(y).accepted <==> CleanAt(grid, connection, opts, y) {
      AcceptedSampleMeaning(grid, connection, opts, repr, y);
    }
    LimitIsBracketed(c, take, Round9, r, trace, top, x);
  }

  // ---- a network with a known limit ----

  const OVERLOAD := Violation(LineElement, 0, ThermalLoading, Hard, AtMost, 100.0, 5.0)
  const LOAD := Connection(1, 0.0, "load", false, 0.0, 1.0)
  const STEADY_ONLY := Cia.CiaOptions(false, false, false, -1, 2.0, false)

  // One line is overloaded exactly by projects above the limit.
  function LimitedGrid(limit: real): Grid {
    Grid(_ => None, (c: Option<Connection>, _) => if c.Some? && c.value.pMw > limit then Converged([OVERLOAD], [OVERLOAD]) else Converged([], []),
      _ => [], _ => None, (_, _) => 0.0)
  }

  /** Such a network takes exactly the sizes from 0 to its limit. */
  lemma LimitedGridTakes(limit: real, mw: real)
    requires limit >= 0.0
    ensures CleanAt(LimitedGrid(limit), LOAD, STEADY_ONLY, mw) <==> 0.0 <= mw <= limit
  {
    var grid, c := LimitedGrid(limit), LOAD.(pMw := mw);
    assert grid.flow(None, None) == Converged([], []);
    assert AttachError(grid, c).None? <==> mw >= 0.0;
    if mw > limit {
      assert grid.flow(Some(c), None) == Converged([OVERLOAD], [OVERLOAD]) && OVERLOAD in [OVERLOAD];
      assert !Cia.Preexisting([], OVERLOAD, 2.0);
    }
  }

  // Between an accepted lower and a rejected upper end the run bisects.
  lemma BisectedByEnds(c: SearchConfig, take: Sampler, key: real -> int, r: SearchResult, trace: seq<Sample>)
    requires c.coarseScanPoints >= 2 && RunReport(c, take, key, r, trace)
    requires take(c.minMw).accepted && !take(c.maxMw).accepted && !SameKey(c, key)
    ensures ByBisection(r) && r.best.Some? && r.lowerBoundMw == Some(r.best.value.mw) && r.upperBoundMw.Some?
    ensures r.status.Bounded? ==> r.upperBoundMw.value - r.lowerBoundMw.value <= c.toleranceMw
    ensures c.minMw <= r.best.value.mw && InBounds(c, trace) && r.firstRejected.Some? && r.firstRejected.value in trace
      && r.firstRejected.value.mw == r.upperBoundMw.value
  {
    assert r.best.value in trace;
  }

  /** The search finds its limit: with the limit between the bounds it brackets it, within the tolerance when `bounded`. */
  lemma LimitIsFound(c: SearchConfig, limit: real, repr: Cia.Repr, r: SearchResult, trace: seq<Sample>)
    requires C.Injective(repr) && BoundsError(c).None? && c.minMw <= limit < c.maxMw && !SameKey(c, Round9)
    requires true == RunReport(c, Sampling(CiaAt(LimitedGrid(limit), LOAD, STEADY_ONLY, repr)), Round9, r, trace)
    ensures ByBisection(r) && r.lowerBoundMw.Some? && r.upperBoundMw.Some?
    ensures r.lowerBoundMw.value <= limit < r.upperBoundMw.value
    ensures r.status.Bounded? ==> r.upperBoundMw.value - r.lowerBoundMw.value <= c.toleranceMw
  {
    LimitedGridSamples(limit, repr);
    ThresholdBracketed(c, Sampling(CiaAt(LimitedGrid(limit), LOAD, STEADY_ONLY, repr)), Round9, limit, r, trace);
  }

  lemma LimitedGridSamples(limit: real, repr: Cia.Repr)
    requires C.Injective(repr) && limit >= 0.0
    ensures true == TakesUpTo(Sampling(CiaAt(LimitedGrid(limit), LOAD, STEADY_ONLY, repr)), limit)
  {
    forall mw: real ensures Sampling(CiaAt(LimitedGrid(limit), LOAD, STEADY_ONLY, repr))(mw).accepted <==> 0.0 <= mw <= limit {
      AcceptedSampleMeaning(LimitedGrid(limit), LOAD, STEADY_ONLY, repr, mw);
      LimitedGridTakes(limit, mw);
    }
  }

  ghost predicate TakesUpTo(take: Sampler, limit: real) { forall mw: real :: take(mw).accepted <==> 0.0 <= mw <= limit }

  lemma ThresholdBracketed(c: SearchConfig, take: Sampler, key: real -> int, limit: real, r: SearchResult, trace: seq<Sample>)
    requires BoundsError(c).None? && c.minMw <= limit < c.maxMw && !SameKey(c, key) && true == RunReport(c, take, key, r, trace)
    requires true == TakesUpTo(take, limit)
    ensures ByBisection(r) && r.lowerBoundMw.Some? && r.upperBoundMw.Some?
    ensures r.lowerBoundMw.value <= limit < r.upperBoundMw.value
    ensures r.status.Bounded? ==> r.upperBoundMw.value - r.lowerBoundMw.value <= c.toleranceMw
  {
    BisectedByEnds(c, take, key, r, trace);
    LimitIsBracketed(c, take, key, r, trace, c.maxMw, limit);
    assert r.best.value == take(r.best.value.mw);
  }
}
