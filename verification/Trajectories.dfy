/** Down-sampling of simulated trajectories to a bounded number of time points. */
module Trajectories {
  import opened Prelude
  import opened Rounding

  datatype TimeSeries = TimeSeries(timeS: seq<real>, columns: seq<string>, values: seq<seq<real>>)

  datatype Bundle = Bundle(angle: Option<TimeSeries>, speed: Option<TimeSeries>, voltage: Option<TimeSeries>)

  function Step(length: int, maxSamples: int): real
    requires maxSamples >= 2
  {
    ((length - 1) as real) / ((maxSamples - 1) as real)
  }

  function RawIndex(length: int, maxSamples: int, i: nat): int
    requires maxSamples >= 2
  {
    RoundHalfEven(Scaled(i, Step(length, maxSamples)))
  }

  ghost predicate StrictlyIncreasing(s: seq<int>) {
    forall i | 0 <= i < |s| - 1 :: s[i] < s[i + 1]
  }

  ghost predicate InRange(s: seq<int>, length: int) {
    forall i | 0 <= i < |s| :: 0 <= s[i] < length
  }

  lemma StepExceedsOne(length: int, maxSamples: int)
    requires 2 <= maxSamples < length
    ensures Step(length, maxSamples) > 1.0
    ensures Scaled(maxSamples - 1, Step(length, maxSamples)) == (length - 1) as real
  {
  }

  function Scaled(i: nat, s: real): real { (i as real) * s }

  lemma ScaledNext(i: nat, s: real)
    ensures Scaled(i + 1, s) - Scaled(i, s) == s
  {
    assert (i + 1) as real == i as real + 1.0;
  }

  lemma ScaledBetween(i: nat, m: nat, s: real)
    requires i <= m && s >= 0.0
    ensures 0.0 <= Scaled(i, s) <= Scaled(m, s)
  {
  }

  lemma RoundedGap(x: real, y: real)
    requires y - x > 1.0
    ensures RoundHalfEven(x) < RoundHalfEven(y)
    ensures (RoundHalfEven(y) - RoundHalfEven(x)) as real <= y - x + 1.0
  {
    RoundSeparates(x, y);
  }

  /** Neighbouring raw indices differ by at least one and at most the step plus one. */
  lemma IndexGap(length: int, maxSamples: int, i: nat)
    requires 2 <= maxSamples < length
    ensures RawIndex(length, maxSamples, i) < RawIndex(length, maxSamples, i + 1)
    ensures (RawIndex(length, maxSamples, i + 1) - RawIndex(length, maxSamples, i)) as real <= Step(length, maxSamples) + 1.0
  {
    StepExceedsOne(length, maxSamples);
    var s := Step(length, maxSamples);
    ScaledNext(i, s);
    RoundedGap(Scaled(i, s), Scaled(i + 1, s));
  }

  /** The first raw index is 0, the last one length - 1, and none leaves that range. */
  lemma IndexRange(length: int, maxSamples: int, i: nat)
    requires 2 <= maxSamples < length && i < maxSamples
    ensures 0 <= RawIndex(length, maxSamples, i) <= length - 1
    ensures i == 0 ==> RawIndex(length, maxSamples, i) == 0
    ensures i == maxSamples - 1 ==> RawIndex(length, maxSamples, i) == length - 1
  {
    StepExceedsOne(length, maxSamples);
    var s := Step(length, maxSamples);
    ScaledBetween(i, maxSamples - 1, s);
    RoundMonotone(0.0, Scaled(i, s));
    RoundMonotone(Scaled(i, s), Scaled(maxSamples - 1, s));
    RoundInteger(0);
    RoundInteger(length - 1);
    assert Scaled(maxSamples - 1, s) == (length - 1) as real;
    assert i == 0 ==> Scaled(i, s) == 0.0;
  }

  /** A raw index is the whole number nearest to its share of the trace, the even one where two are equally near. */
  lemma IndexNearest(length: int, maxSamples: int, i: nat)
    requires maxSamples >= 2
    ensures var share := (i as real) * (((length - 1) as real) / ((maxSamples - 1) as real)); var index := RawIndex(length, maxSamples, i);
      && -0.5 <= index as real - share <= 0.5
      && (index as real - share == 0.5 || index as real - share == -0.5 ==> index % 2 == 0)
  {
    var share := (i as real) * (((length - 1) as real) / ((maxSamples - 1) as real));
    assert share == Scaled(i, Step(length, maxSamples));
    assert RawIndex(length, maxSamples, i) == RoundHalfEven(share);
  }

  /** `_sample_indices`: clamping and dropping repeats change nothing, so a long trace keeps exactly
      `maxSamples` points, from the first to the last, nearly evenly spaced. */
  method SampleIndices(length: int, maxSamples: int) returns (r: seq<int>)
    ensures StrictlyIncreasing(r) && InRange(r, length)
    ensures |r| == if length <= 0 then 0 else Min(length, Max(maxSamples, 0))
    ensures 0 < length <= maxSamples ==> forall i | 0 <= i < length :: r[i] == i
    ensures 1 <= maxSamples && 1 <= length ==> r[0] == 0
    ensures 2 <= maxSamples && 1 <= length ==> r[|r| - 1] == length - 1
    ensures 2 <= maxSamples < length ==> forall i | 0 <= i < maxSamples :: r[i] == RawIndex(length, maxSamples, i)
    ensures 2 <= maxSamples < length ==> forall i | 0 <= i < maxSamples - 1 :: (r[i + 1] - r[i]) as real <= Step(length, maxSamples) + 1.0
  {
    if length <= 0 {
      return [];
    }
    if length <= maxSamples {
      return seq(length, i requires 0 <= i < length => i);
    }
    if maxSamples == 1 {
      return [0];
    }
    if maxSamples <= 0 {
      return [];  // range(max_samples) is empty
    }
    var indices := seq(maxSamples, i requires 0 <= i < maxSamples => RawIndex(length, maxSamples, i));
    var deduped := [];
    forall i: nat | i < maxSamples ensures 0 <= indices[i] < length && (i + 1 < maxSamples ==> indices[i] < indices[i + 1]) {
      IndexRange(length, maxSamples, i);
      IndexGap(length, maxSamples, i);
    }
    for k := 0 to |indices|
      invariant deduped == indices[..k]
    {
      var index := Min(length - 1, Max(0, indices[k]));
      if deduped == [] || index != deduped[|deduped| - 1] {
        deduped := deduped + [index];
      }
    }
    assert deduped == indices;
    IndexRange(length, maxSamples, 0);
    IndexRange(length, maxSamples, maxSamples - 1);
    forall i: nat | i < maxSamples - 1 ensures (indices[i + 1] - indices[i]) as real <= Step(length, maxSamples) + 1.0 {
      IndexGap(length, maxSamples, i);
    }
    return deduped;
  }

  // ---- the compact view ----

  function RoundFloat(x: real): real { (Round9(x) as real) / NANO }

  function FirstTimeVector(b: Bundle): seq<real> {
    if b.angle.Some? && b.angle.value.timeS != [] then b.angle.value.timeS
    else if b.speed.Some? && b.speed.value.timeS != [] then b.speed.value.timeS
    else if b.voltage.Some? && b.voltage.value.timeS != [] then b.voltage.value.timeS
    else []
  }

  /** The time vector is that of the first series that has one, angles before speeds before voltages. */
  lemma FirstTimeVectorMeaning(b: Bundle)
    ensures var angle := if b.angle.Some? then b.angle.value.timeS else [];
      var speed := if b.speed.Some? then b.speed.value.timeS else [];
      var voltage := if b.voltage.Some? then b.voltage.value.timeS else [];
      && (angle != [] ==> FirstTimeVector(b) == angle)
      && (angle == [] && speed != [] ==> FirstTimeVector(b) == speed)
      && (angle == [] && speed == [] ==> FirstTimeVector(b) == voltage)
  {
  }

  predicate Within(index: int, rows: nat) { 0 <= index < rows }

  /** The rows at the sampled indices that the series has; numbers are rounded to nine decimals. */
  function SeriesPayload(s: TimeSeries, indices: seq<int>): seq<seq<real>> {
    Map(Filter(indices, i => Within(i, |s.values|)), i => if Within(i, |s.values|) then Map(s.values[i], RoundFloat) else [])
  }

  datatype Compact = Compact(
    timeS: seq<real>,
    rawSampleCount: nat,
    truncatedSamples: nat,
    angle: Option<seq<seq<real>>>,
    speed: Option<seq<seq<real>>>,
    voltage: Option<seq<seq<real>>>)

  function OptionalPayload(s: Option<TimeSeries>, indices: seq<int>): Option<seq<seq<real>>> {
    if s.None? then None else Some(SeriesPayload(s.value, indices))
  }

  /** `_compact_trajectories`: kept and dropped points account for the whole raw trace. */
  method CompactTrajectories(b: Bundle, maxSamples: int) returns (r: Compact, ghost indices: seq<int>)
    ensures |r.timeS| + r.truncatedSamples == r.rawSampleCount == |FirstTimeVector(b)|
    ensures |r.timeS| == Min(r.rawSampleCount, Max(maxSamples, 0))
    ensures StrictlyIncreasing(indices) && InRange(indices, r.rawSampleCount) && |indices| == |r.timeS|
    ensures forall i | 0 <= i < |indices| :: r.timeS[i] == RoundFloat(FirstTimeVector(b)[indices[i]])
    ensures r.angle == OptionalPayload(b.angle, indices)
    ensures r.speed == OptionalPayload(b.speed, indices)
    ensures r.voltage == OptionalPayload(b.voltage, indices)
  {
    var baseTime := FirstTimeVector(b);
    var sampled := SampleIndices(|baseTime|, maxSamples);
    indices := sampled;
    r := Compact(
      seq(|sampled|, i requires 0 <= i < |sampled| => RoundFloat(baseTime[sampled[i]])),
      |baseTime|, Max(0, |baseTime| - |sampled|),
      OptionalPayload(b.angle, sampled), OptionalPayload(b.speed, sampled), OptionalPayload(b.voltage, sampled));
  }

  /** A series as long as the time vector contributes one row per kept time point. */
  lemma PayloadAligned(s: TimeSeries, indices: seq<int>)
    requires InRange(indices, |s.values|)
    ensures |SeriesPayload(s, indices)| == |indices|
    ensures forall i | 0 <= i < |indices| :: SeriesPayload(s, indices)[i] == Map(s.values[indices[i]], RoundFloat)
  {
    FilterAll(indices, i => Within(i, |s.values|));
  }
}
