/** Stability metrics of simulated trajectories and the pass, borderline or fail they lead to. */
module Stability {
  import opened Prelude
  import opened Rounding
  import opened Stages
  import opened Trajectories

  type Rows = seq<seq<real>>

  // ---- folds ----

  function MaxOf(s: seq<real>): (r: Option<real>)
    ensures r.None? <==> s == []
    ensures r.Some? ==> r.value in s && forall x | x in s :: x <= r.value
  {
    if s == [] then None
    else
      var rest, last := MaxOf(s[..|s| - 1]), s[|s| - 1];
      assert s == s[..|s| - 1] + [last];
      if rest.None? || rest.value < last then Some(last) else rest
  }

  function MinOf(s: seq<real>): (r: Option<real>)
    ensures r.None? <==> s == []
    ensures r.Some? ==> r.value in s && forall x | x in s :: r.value <= x
  {
    if s == [] then None
    else
      var rest, last := MinOf(s[..|s| - 1]), s[|s| - 1];
      assert s == s[..|s| - 1] + [last];
      if rest.None? || last < rest.value then Some(last) else rest
  }

  function RowSpread(row: seq<real>): real {
    if |row| <= 1 then 0.0 else MaxOf(row).value - MinOf(row).value
  }

  /** The spread of a row is its largest difference. */
  lemma SpreadIsLargestDifference(row: seq<real>, limit: real)
    requires row != []
    ensures RowSpread(row) <= limit <==> forall x, y | x in row && y in row :: x - y <= limit
  {
    var high, low := MaxOf(row).value, MinOf(row).value;
    assert high in row && low in row;
    assert RowSpread(row) == high - low;
    if high - low <= limit {
      forall x, y | x in row && y in row ensures x - y <= limit {
        assert x <= high && low <= y;
      }
    }
  }

  predicate NonEmpty(row: seq<real>) { row != [] }

  function MaxRowSpread(rows: Rows): Option<real> { MaxOf(Map(Filter(rows, NonEmpty), RowSpread)) }

  function Values(rows: Rows): (r: seq<real>)
    ensures forall x :: x in r <==> exists row | row in rows :: x in row
  {
    if rows == [] then []
    else
      assert rows == rows[..|rows| - 1] + [rows[|rows| - 1]];
      Values(rows[..|rows| - 1]) + rows[|rows| - 1]
  }

  function Deviation(reference: real): real -> real {
    v => if v < reference then reference - v else v - reference
  }

  function MaxAbsDeviation(rows: Rows, reference: real): Option<real> { MaxOf(Map(Values(rows), Deviation(reference))) }

  function MinValue(rows: Rows): Option<real> { MinOf(Values(rows)) }

  // ---- metrics and classification ----

  datatype Thresholds = Thresholds(maxAngleSpread: real, maxSpeedDeviation: real, minVoltage: real)

  datatype Code =
    | TdsNotConverged
    | AngleUnavailable | AngleExceeds
    | SpeedUnavailable | SpeedExceeds
    | VoltageUnavailable | VoltageBelow
    | WithinThresholds

  function SeriesValues(s: Option<TimeSeries>): Rows { if s.None? then [] else s.value.values }

  datatype Metrics = Metrics(
    maxAngleSpread: Option<real>,
    finalAngleSpread: Option<real>,
    maxSpeedDeviation: Option<real>,
    minVoltage: Option<real>,
    codes: seq<Code>)

  function StabilityMetrics(b: Bundle, converged: bool, t: Thresholds): Metrics {
    var angles := SeriesValues(b.angle);
    var angle, speed, voltage := MaxRowSpread(angles), MaxAbsDeviation(SeriesValues(b.speed), 1.0), MinValue(SeriesValues(b.voltage));
    Metrics(angle, if angles == [] then None else Some(RowSpread(angles[|angles| - 1])), speed, voltage,
      ReasonCodes(converged, angle, speed, voltage, t))
  }

  function ReasonCodes(converged: bool, angle: Option<real>, speed: Option<real>, voltage: Option<real>, t: Thresholds): seq<Code> {
    var codes :=
      (if !converged then [TdsNotConverged] else []) +
      (if angle.None? then [AngleUnavailable] else if angle.value > t.maxAngleSpread then [AngleExceeds] else []) +
      (if speed.None? then [SpeedUnavailable] else if speed.value > t.maxSpeedDeviation then [SpeedExceeds] else []) +
      (if voltage.None? then [VoltageUnavailable] else if voltage.value < t.minVoltage then [VoltageBelow] else []);
    if codes == [] then [WithinThresholds] else codes
  }

  function ClassifyStability(m: Metrics): Status {
    if exists c | c in m.codes :: IsFailureCode(c) then Fail
    else if exists c | c in m.codes :: IsMissingCode(c) then BorderlineStatus
    else Pass
  }

  predicate IsFailureCode(c: Code) { c.TdsNotConverged? || c.AngleExceeds? || c.SpeedExceeds? || c.VoltageBelow? }

  predicate IsMissingCode(c: Code) { c.AngleUnavailable? || c.SpeedUnavailable? || c.VoltageUnavailable? }

  function Stability(b: Bundle, converged: bool, t: Thresholds): Status {
    ClassifyStability(StabilityMetrics(b, converged, t))
  }

  // ---- what the verdict says about the raw samples ----

  ghost predicate AngleWithin(rows: Rows, limit: real) {
    forall row, x, y | row in rows && x in row && y in row :: x - y <= limit
  }

  ghost predicate SpeedWithin(rows: Rows, limit: real) {
    forall row, v | row in rows && v in row :: -limit <= v - 1.0 <= limit
  }

  ghost predicate VoltageWithin(rows: Rows, limit: real) {
    forall row, v | row in rows && v in row :: limit <= v
  }

  ghost predicate HasData(rows: Rows) {
    exists row | row in rows :: row != []
  }

  lemma AngleMeaning(rows: Rows, limit: real)
    ensures MaxRowSpread(rows).Some? <==> HasData(rows)
    ensures MaxRowSpread(rows).Some? ==> (MaxRowSpread(rows).value <= limit <==> AngleWithin(rows, limit))
  {
    var kept := Filter(rows, NonEmpty);
    var spreads := Map(kept, RowSpread);
    assert kept != [] ==> kept[0] in kept;
    if kept != [] {
      forall row | row in kept ensures RowSpread(row) in spreads {
        var i :| 0 <= i < |kept| && kept[i] == row;
        assert spreads[i] == RowSpread(row);
      }
      var i :| 0 <= i < |spreads| && spreads[i] == MaxOf(spreads).value;
      assert kept[i] in kept && RowSpread(kept[i]) == MaxRowSpread(rows).value;
      forall row | row in kept ensures RowSpread(row) <= limit <==> forall x, y | x in row && y in row :: x - y <= limit {
        SpreadIsLargestDifference(row, limit);
      }
      assert forall row, x | row in rows && x in row :: row in kept;
    }
  }

  lemma ValuesData(rows: Rows)
    ensures Values(rows) != [] <==> HasData(rows)
  {
    var values := Values(rows);
    assert values != [] ==> values[0] in values;
    if HasData(rows) {
      var row :| row in rows && row != [];
      assert row[0] in row && row[0] in values;
    }
  }

  lemma SpeedMeaning(rows: Rows, limit: real)
    ensures MaxAbsDeviation(rows, 1.0).Some? <==> HasData(rows)
    ensures MaxAbsDeviation(rows, 1.0).Some? ==> (MaxAbsDeviation(rows, 1.0).value <= limit <==> SpeedWithin(rows, limit))
  {
    ValuesData(rows);
    var values := Values(rows);
    var deviations := Map(values, Deviation(1.0));
    if values != [] {
      var top := MaxOf(deviations).value;
      var i :| 0 <= i < |deviations| && deviations[i] == top;
      assert values[i] in values;
      var witnessRow :| witnessRow in rows && values[i] in witnessRow;
      forall row, v | row in rows && v in row ensures Deviation(1.0)(v) <= top {
        assert v in values;
        var j :| 0 <= j < |values| && values[j] == v;
        assert deviations[j] in deviations;
      }
      assert SpeedWithin(rows, limit) ==> -limit <= values[i] - 1.0 <= limit;
    }
  }

  lemma VoltageMeaning(rows: Rows, limit: real)
    ensures MinValue(rows).Some? <==> HasData(rows)
    ensures MinValue(rows).Some? ==> (MinValue(rows).value >= limit <==> VoltageWithin(rows, limit))
  {
    ValuesData(rows);
    var values := Values(rows);
    if values != [] {
      var bottom := MinOf(values).value;
      var witnessRow :| witnessRow in rows && bottom in witnessRow;
      forall row, v | row in rows && v in row ensures bottom <= v {
        assert v in values;
      }
    }
  }

  ghost predicate AllData(b: Bundle) {
    HasData(SeriesValues(b.angle)) && HasData(SeriesValues(b.speed)) && HasData(SeriesValues(b.voltage))
  }

  ghost predicate AllWithin(b: Bundle, t: Thresholds) {
    && AngleWithin(SeriesValues(b.angle), t.maxAngleSpread)
    && SpeedWithin(SeriesValues(b.speed), t.maxSpeedDeviation)
    && VoltageWithin(SeriesValues(b.voltage), t.minVoltage)
  }

  /** Pass means: converged, data in all three series, and every sample within its threshold. Fail means: not
      converged, or some sample beyond its threshold; missing data alone is borderline. */
  lemma StabilityMeaning(b: Bundle, converged: bool, t: Thresholds)
    ensures Stability(b, converged, t).Fail? <==> !converged || !AllWithin(b, t)
    ensures Stability(b, converged, t).Pass? <==> converged && AllWithin(b, t) && AllData(b)
    ensures Stability(b, converged, t) in {Pass, BorderlineStatus, Fail}
  {
    var angles, speeds, voltages := SeriesValues(b.angle), SeriesValues(b.speed), SeriesValues(b.voltage);
    AngleMeaning(angles, t.maxAngleSpread);
    SpeedMeaning(speeds, t.maxSpeedDeviation);
    VoltageMeaning(voltages, t.minVoltage);
    NoDataWithin(angles, t.maxAngleSpread);
    NoDataWithin(speeds, t.maxSpeedDeviation);
    NoDataWithin(voltages, t.minVoltage);
    var m := StabilityMetrics(b, converged, t);
    CodesListed(converged, m.maxAngleSpread, m.maxSpeedDeviation, m.minVoltage, t);
    CodesDecide(m);
  }

  lemma NoDataWithin(rows: Rows, limit: real)
    ensures !HasData(rows) ==> AngleWithin(rows, limit) && SpeedWithin(rows, limit) && VoltageWithin(rows, limit)
  {
    assert forall row, x | row in rows && x in row :: row != [];
  }

  lemma CodesListed(converged: bool, angle: Option<real>, speed: Option<real>, voltage: Option<real>, t: Thresholds)
    ensures var codes := ReasonCodes(converged, angle, speed, voltage, t);
      && (TdsNotConverged in codes <==> !converged)
      && (AngleUnavailable in codes <==> angle.None?)
      && (AngleExceeds in codes <==> angle.Some? && angle.value > t.maxAngleSpread)
      && (SpeedUnavailable in codes <==> speed.None?)
      && (SpeedExceeds in codes <==> speed.Some? && speed.value > t.maxSpeedDeviation)
      && (VoltageUnavailable in codes <==> voltage.None?)
      && (VoltageBelow in codes <==> voltage.Some? && voltage.value < t.minVoltage)
  {
  }

  lemma CodesDecide(m: Metrics)
    ensures ClassifyStability(m).Fail? <==>
      TdsNotConverged in m.codes || AngleExceeds in m.codes || SpeedExceeds in m.codes || VoltageBelow in m.codes
    ensures ClassifyStability(m).Pass? ==>
      AngleUnavailable !in m.codes && SpeedUnavailable !in m.codes && VoltageUnavailable !in m.codes
    ensures ClassifyStability(m).BorderlineStatus? ==>
      AngleUnavailable in m.codes || SpeedUnavailable in m.codes || VoltageUnavailable in m.codes
  {
  }

  /** The metrics against any limit: the largest spread, the largest deviation from 1 and the least voltage of the data
      there is, and the largest difference in the last row of angles. */
  lemma MetricsMeaning(b: Bundle, converged: bool, t: Thresholds, limit: real)
    ensures var m := StabilityMetrics(b, converged, t); var angles := SeriesValues(b.angle);
      && (m.maxAngleSpread.Some? <==> HasData(angles))
      && (m.maxAngleSpread.Some? ==> (m.maxAngleSpread.value <= limit <==> AngleWithin(angles, limit)))
      && (m.maxSpeedDeviation.Some? <==> HasData(SeriesValues(b.speed)))
      && (m.maxSpeedDeviation.Some? ==> (m.maxSpeedDeviation.value <= limit <==> SpeedWithin(SeriesValues(b.speed), limit)))
      && (m.minVoltage.Some? <==> HasData(SeriesValues(b.voltage)))
      && (m.minVoltage.Some? ==> (m.minVoltage.value >= limit <==> VoltageWithin(SeriesValues(b.voltage), limit)))
  {
    AngleMeaning(SeriesValues(b.angle), limit);
    SpeedMeaning(SeriesValues(b.speed), limit);
    VoltageMeaning(SeriesValues(b.voltage), limit);
  }

  lemma FinalSpreadMeaning(b: Bundle, converged: bool, t: Thresholds, limit: real)
    ensures var final := StabilityMetrics(b, converged, t).finalAngleSpread; var angles := SeriesValues(b.angle);
      && (final.None? <==> angles == [])
      && (final.Some? ==> var row := angles[|angles| - 1];
           if row == [] then final.value == 0.0
           else final.value <= limit <==> forall x, y | x in row && y in row :: x - y <= limit)
  {
    var angles := SeriesValues(b.angle);
    if angles != [] && angles[|angles| - 1] != [] {
      SpreadIsLargestDifference(angles[|angles| - 1], limit);
    }
  }

  /** The reasons: a series without data is unavailable, one with data beyond its threshold exceeds it, and the trace is within
      the thresholds where it passes. */
  lemma ReasonsMeaning(b: Bundle, converged: bool, t: Thresholds)
    ensures var codes := StabilityMetrics(b, converged, t).codes;
      && (TdsNotConverged in codes <==> !converged)
      && (AngleUnavailable in codes <==> !HasData(SeriesValues(b.angle)))
      && (AngleExceeds in codes <==> !AngleWithin(SeriesValues(b.angle), t.maxAngleSpread))
      && (SpeedUnavailable in codes <==> !HasData(SeriesValues(b.speed)))
      && (SpeedExceeds in codes <==> !SpeedWithin(SeriesValues(b.speed), t.maxSpeedDeviation))
      && (VoltageUnavailable in codes <==> !HasData(SeriesValues(b.voltage)))
      && (VoltageBelow in codes <==> !VoltageWithin(SeriesValues(b.voltage), t.minVoltage))
      && (WithinThresholds in codes <==> Stability(b, converged, t).Pass?)
  {
    var m := StabilityMetrics(b, converged, t);
    AngleMeaning(SeriesValues(b.angle), t.maxAngleSpread);
    SpeedMeaning(SeriesValues(b.speed), t.maxSpeedDeviation);
    VoltageMeaning(SeriesValues(b.voltage), t.minVoltage);
    NoDataWithin(SeriesValues(b.angle), t.maxAngleSpread);
    NoDataWithin(SeriesValues(b.speed), t.maxSpeedDeviation);
    NoDataWithin(SeriesValues(b.voltage), t.minVoltage);
    CodesListed(converged, m.maxAngleSpread, m.maxSpeedDeviation, m.minVoltage, t);
    StabilityMeaning(b, converged, t);
    WithinMeaning(converged, m.maxAngleSpread, m.maxSpeedDeviation, m.minVoltage, t);
  }

  lemma WithinMeaning(converged: bool, angle: Option<real>, speed: Option<real>, voltage: Option<real>, t: Thresholds)
    ensures WithinThresholds in ReasonCodes(converged, angle, speed, voltage, t) <==>
      (converged && angle.Some? && angle.value <= t.maxAngleSpread && speed.Some? && speed.value <= t.maxSpeedDeviation
       && voltage.Some? && voltage.value >= t.minVoltage)
  {
  }

  // ---- monotonicity over runs ----

  ghost predicate RowsFrom(part: Rows, whole: Rows) { forall row | row in part :: row in whole }

  /** A passing trace still passes on any selection of its rows that keeps data in every series. */
  lemma PassOnSubTrace(whole: Bundle, part: Bundle, converged: bool, t: Thresholds)
    requires RowsFrom(SeriesValues(part.angle), SeriesValues(whole.angle))
    requires RowsFrom(SeriesValues(part.speed), SeriesValues(whole.speed))
    requires RowsFrom(SeriesValues(part.voltage), SeriesValues(whole.voltage))
    requires Stability(whole, converged, t).Pass?
    ensures Stability(part, converged, t).Pass? <==> AllData(part)
  {
    StabilityMeaning(whole, converged, t);
    StabilityMeaning(part, converged, t);
  }

  function PrefixOf(s: Option<TimeSeries>, k: nat): Option<TimeSeries> {
    if s.None? then None else Some(s.value.(timeS := Take(s.value.timeS, k), values := Take(s.value.values, k)))
  }

  /** ... in particular on every initial stretch ... */
  lemma PassOnPrefix(b: Bundle, k: nat, converged: bool, t: Thresholds)
    requires Stability(b, converged, t).Pass?
    ensures var prefix := Bundle(PrefixOf(b.angle, k), PrefixOf(b.speed, k), PrefixOf(b.voltage, k));
      Stability(prefix, converged, t).Pass? <==> AllData(prefix)
  {
    PassOnSubTrace(b, Bundle(PrefixOf(b.angle, k), PrefixOf(b.speed, k), PrefixOf(b.voltage, k)), converged, t);
  }

  function SampledRows(s: Option<TimeSeries>, indices: seq<int>): Option<TimeSeries> {
    if s.None? then None
    else
      var rows := Filter(indices, i => Within(i, |s.value.values|));
      Some(s.value.(values := Map(rows, i => if Within(i, |s.value.values|) then s.value.values[i] else [])))
  }

  /** ... and on the down-sampled rows before they are rounded for display. */
  lemma PassOnSamples(b: Bundle, indices: seq<int>, converged: bool, t: Thresholds)
    requires Stability(b, converged, t).Pass?
    ensures var sampled := Bundle(SampledRows(b.angle, indices), SampledRows(b.speed, indices), SampledRows(b.voltage, indices));
      Stability(sampled, converged, t).Pass? <==> AllData(sampled)
  {
    var sampled := Bundle(SampledRows(b.angle, indices), SampledRows(b.speed, indices), SampledRows(b.voltage, indices));
    SampledFrom(b.angle, indices);
    SampledFrom(b.speed, indices);
    SampledFrom(b.voltage, indices);
    PassOnSubTrace(b, sampled, converged, t);
  }

  lemma SampledFrom(s: Option<TimeSeries>, indices: seq<int>)
    ensures RowsFrom(SeriesValues(SampledRows(s, indices)), SeriesValues(s))
  {
    if s.Some? {
      var rows := Filter(indices, i => Within(i, |s.value.values|));
      forall j | 0 <= j < |rows| ensures SampledRows(s, indices).value.values[j] in s.value.values {
        assert rows[j] in rows;
      }
    }
  }

  /** Sampling that starts at 0, as `_sample_indices` does on any non-empty trace, keeps the first row of every series
      that has one ... */
  lemma SamplesKeepFirstRow(s: TimeSeries, indices: seq<int>)
    requires indices != [] && indices[0] == 0 && s.values != []
    ensures var rows := SampledRows(Some(s), indices).value.values; rows != [] && rows[0] == s.values[0]
  {
    FilterHead(indices, i => Within(i, |s.values|));
  }

  predicate StartsWithData(s: Option<TimeSeries>) { s.Some? && s.value.values != [] && s.value.values[0] != [] }

  lemma SamplesKeepData(s: Option<TimeSeries>, indices: seq<int>)
    requires indices != [] && indices[0] == 0 && StartsWithData(s)
    ensures HasData(SeriesValues(SampledRows(s, indices)))
  {
    SamplesKeepFirstRow(s.value, indices);
    var rows := SeriesValues(SampledRows(s, indices));
    assert rows[0] in rows && rows[0] != [];
  }

  /** ... so a passing trace whose series all start with data passes when sampled. */
  lemma PassWhenSampled(b: Bundle, indices: seq<int>, converged: bool, t: Thresholds)
    requires Stability(b, converged, t).Pass? && indices != [] && indices[0] == 0
    requires StartsWithData(b.angle) && StartsWithData(b.speed) && StartsWithData(b.voltage)
    ensures Stability(Bundle(SampledRows(b.angle, indices), SampledRows(b.speed, indices), SampledRows(b.voltage, indices)), converged, t).Pass?
  {
    SamplesKeepData(b.angle, indices);
    SamplesKeepData(b.speed, indices);
    SamplesKeepData(b.voltage, indices);
    PassOnSamples(b, indices, converged, t);
  }

  // ---- the rounded rows that are displayed ----

  function Displayed(s: Option<TimeSeries>, indices: seq<int>): Option<TimeSeries> {
    if s.None? then None else Some(s.value.(values := SeriesPayload(s.value, indices)))
  }

  /** Nine decimals are off by at most half a unit in the last place. */
  lemma RoundFloatError(x: real)
    ensures -0.0000000005 <= RoundFloat(x) - x <= 0.0000000005
  {
    var r := Round9(x) as real;
    assert -0.5 <= r - x * NANO <= 0.5;
    assert RoundFloat(x) * NANO == r;
  }

  // Row by row the same numbers, up to rounding.
  ghost predicate RoundedRows(shown: Rows, rows: Rows) {
    |shown| == |rows| && forall i | 0 <= i < |rows| :: shown[i] == Map(rows[i], RoundFloat)
  }

  // (An equation keeps a predicate one fact for the verifier.)
  lemma DisplayedIsRounded(s: Option<TimeSeries>, indices: seq<int>)
    ensures true == RoundedRows(SeriesValues(Displayed(s, indices)), SeriesValues(SampledRows(s, indices)))
  {
    if s.Some? {
      var kept := Filter(indices, i => Within(i, |s.value.values|));
      forall j | 0 <= j < |kept| ensures Within(kept[j], |s.value.values|) {
        assert kept[j] in kept;
      }
    }
  }

  lemma RoundedEntry(shown: Rows, rows: Rows, row: seq<real>, v: real) returns (was: seq<real>, x: real)
    requires RoundedRows(shown, rows) && row in shown && v in row
    ensures was in rows && x in was && row == Map(was, RoundFloat) && v == RoundFloat(x)
  {
    var i :| 0 <= i < |shown| && shown[i] == row;
    was := rows[i];
    var k :| 0 <= k < |row| && row[k] == v;
    x := was[k];
  }

  lemma RoundedData(shown: Rows, rows: Rows)
    requires RoundedRows(shown, rows)
    ensures HasData(shown) <==> HasData(rows)
  {
    if row :| row in shown && row != [] {
      var i :| 0 <= i < |shown| && shown[i] == row;
      assert rows[i] in rows && |rows[i]| == |shown[i]|;
    }
    if row :| row in rows && row != [] {
      var i :| 0 <= i < |rows| && rows[i] == row;
      assert shown[i] in shown && |rows[i]| == |shown[i]|;
    }
  }

  lemma RoundedWithin(shown: Rows, rows: Rows, limit: real)
    requires true == RoundedRows(shown, rows)
    ensures HasData(shown) <==> HasData(rows)
    ensures AngleWithin(rows, limit) ==> true == AngleWithin(shown, limit + 0.000000001)
    ensures SpeedWithin(rows, limit) ==> true == SpeedWithin(shown, limit + 0.0000000005)
    ensures VoltageWithin(rows, limit) ==> true == VoltageWithin(shown, limit - 0.0000000005)
  {
    RoundedData(shown, rows);
    forall row, v | row in shown && v in row
      ensures SpeedWithin(rows, limit) ==> -(limit + 0.0000000005) <= v - 1.0 <= limit + 0.0000000005
      ensures VoltageWithin(rows, limit) ==> limit - 0.0000000005 <= v
    {
      var was, x := RoundedEntry(shown, rows, row, v);
      RoundFloatError(x);
    }
    forall row, v, w | row in shown && v in row && w in row
      ensures AngleWithin(rows, limit) ==> v - w <= limit + 0.000000001
    {
      var i :| 0 <= i < |shown| && shown[i] == row;
      var j :| 0 <= j < |row| && row[j] == v;
      var k :| 0 <= k < |row| && row[k] == w;
      assert rows[i] in rows && rows[i][j] in rows[i] && rows[i][k] in rows[i];
      RoundFloatError(rows[i][j]);
      RoundFloatError(rows[i][k]);
    }
  }

  /** Thresholds that allow for the rounding: a spread may grow by 1e-9, a single value move by half of that. */
  function Loosened(t: Thresholds): Thresholds {
    Thresholds(t.maxAngleSpread + 0.000000001, t.maxSpeedDeviation + 0.0000000005, t.minVoltage - 0.0000000005)
  }

  lemma RoundedPass(b: Bundle, shown: Bundle, converged: bool, t: Thresholds)
    requires Stability(b, converged, t).Pass?
    requires true == RoundedRows(SeriesValues(shown.angle), SeriesValues(b.angle))
    requires true == RoundedRows(SeriesValues(shown.speed), SeriesValues(b.speed))
    requires true == RoundedRows(SeriesValues(shown.voltage), SeriesValues(b.voltage))
    ensures Stability(shown, converged, Loosened(t)).Pass?
  {
    StabilityMeaning(b, converged, t);
    RoundedBundle(b, shown, t);
    StabilityMeaning(shown, converged, Loosened(t));
  }

  lemma RoundedBundle(b: Bundle, shown: Bundle, t: Thresholds)
    requires true == AllWithin(b, t) && true == AllData(b)
    requires true == RoundedRows(SeriesValues(shown.angle), SeriesValues(b.angle))
    requires true == RoundedRows(SeriesValues(shown.speed), SeriesValues(b.speed))
    requires true == RoundedRows(SeriesValues(shown.voltage), SeriesValues(b.voltage))
    ensures true == AllWithin(shown, Loosened(t)) && true == AllData(shown)
  {
    RoundedWithin(SeriesValues(shown.angle), SeriesValues(b.angle), t.maxAngleSpread);
    RoundedWithin(SeriesValues(shown.speed), SeriesValues(b.speed), t.maxSpeedDeviation);
    RoundedWithin(SeriesValues(shown.voltage), SeriesValues(b.voltage), t.minVoltage);
  }

  /** What is displayed passes too once the thresholds allow for the rounding. */
  lemma PassWhenDisplayed(b: Bundle, indices: seq<int>, converged: bool, t: Thresholds)
    requires Stability(b, converged, t).Pass? && indices != [] && indices[0] == 0
    requires StartsWithData(b.angle) && StartsWithData(b.speed) && StartsWithData(b.voltage)
    ensures Stability(Bundle(Displayed(b.angle, indices), Displayed(b.speed, indices), Displayed(b.voltage, indices)), converged, Loosened(t)).Pass?
  {
    PassWhenSampled(b, indices, converged, t);
    DisplayedIsRounded(b.angle, indices);
    DisplayedIsRounded(b.speed, indices);
    DisplayedIsRounded(b.voltage, indices);
    RoundedPass(Bundle(SampledRows(b.angle, indices), SampledRows(b.speed, indices), SampledRows(b.voltage, indices)),
      Bundle(Displayed(b.angle, indices), Displayed(b.speed, indices), Displayed(b.voltage, indices)), converged, t);
  }

  /** Relaxing thresholds never worsens the verdict. */
  lemma RelaxingNeverWorsens(b: Bundle, converged: bool, strict: Thresholds, loose: Thresholds)
    requires strict.maxAngleSpread <= loose.maxAngleSpread
    requires strict.maxSpeedDeviation <= loose.maxSpeedDeviation
    requires loose.minVoltage <= strict.minVoltage
    ensures OutcomeRank(Stability(b, converged, strict)) <= OutcomeRank(Stability(b, converged, loose))
  {
    StabilityMeaning(b, converged, strict);
    StabilityMeaning(b, converged, loose);
  }

  // ---- merging two generator models ----

  predicate HasRows(s: Option<TimeSeries>) { s.Some? && s.value.values != [] }

  function MergedRow(parts: seq<TimeSeries>, index: nat): seq<real>
    requires forall p | p in parts :: index < |p.values|
  {
    if parts == [] then []
    else
      var k := |parts| - 1;
      assert parts[k] in parts;
      MergedRow(parts[..k], index) + parts[k].values[index]
  }

  function MergedColumns(parts: seq<TimeSeries>): seq<string> {
    if parts == [] then [] else MergedColumns(parts[..|parts| - 1]) + parts[|parts| - 1].columns
  }

  function SeriesIn(s: Option<TimeSeries>): TimeSeries { if s.Some? then s.value else TimeSeries([], [], []) }

  /** The series that are there and have rows, in the order given. */
  function Present(series: seq<Option<TimeSeries>>): (r: seq<TimeSeries>)
    ensures r == [] <==> forall s | s in series :: !HasRows(s)
    ensures forall p :: p in r <==> Some(p) in series && HasRows(Some(p))
  {
    var kept := Filter(series, HasRows);
    FilterNone(series, HasRows);
    var r := Map(kept, SeriesIn);
    PresentMembers(series, kept, r);
    r
  }

  lemma PresentMembers(series: seq<Option<TimeSeries>>, kept: seq<Option<TimeSeries>>, r: seq<TimeSeries>)
    requires kept == Filter(series, HasRows) && r == Map(kept, SeriesIn)
    ensures forall p :: p in r <==> Some(p) in series && HasRows(Some(p))
  {
    forall p ensures p in r <==> Some(p) in kept {
      if p in r {
        var i :| 0 <= i < |r| && r[i] == p;
        assert kept[i] in kept && HasRows(kept[i]) && kept[i] == Some(p);
      }
      if Some(p) in kept {
        var i :| 0 <= i < |kept| && kept[i] == Some(p);
        assert r[i] == p;
      }
    }
  }

  ghost predicate IsLeastRows(parts: seq<TimeSeries>, n: nat) {
    (forall p | p in parts :: n <= |p.values|) && exists p | p in parts :: n == |p.values|
  }

  lemma LeastRowsNext(front: seq<TimeSeries>, last: TimeSeries, n: nat)
    requires IsLeastRows(front, n)
    ensures IsLeastRows(front + [last], Min(n, |last.values|))
  {
    var p :| p in front && n == |p.values|;
    assert p in front + [last] && last in front + [last];
  }

  // The least number of rows.
  function MinRows(parts: seq<TimeSeries>): (n: nat)
    requires parts != []
    ensures IsLeastRows(parts, n)
  {
    var front, last := parts[..|parts| - 1], parts[|parts| - 1];
    assert parts == front + [last];
    if front == [] then
      assert last in parts;
      |last.values|
    else
      LeastRowsNext(front, last, MinRows(front));
      Min(MinRows(front), |last.values|)
  }

  /** The present parts side by side, over the rows all of them have. */
  function Merged(series: seq<Option<TimeSeries>>): (r: Option<TimeSeries>)
    ensures r.None? <==> Present(series) == []
    ensures r.Some? ==> forall p | p in Present(series) :: |r.value.values| <= |p.values|
    ensures r.Some? ==> exists p | p in Present(series) :: |r.value.values| == |p.values|
    ensures r.Some? ==> forall i | 0 <= i < |r.value.values| :: r.value.values[i] == MergedRow(Present(series), i)
    ensures r.Some? ==> r.value.timeS == Take(Present(series)[0].timeS, |r.value.values|) && r.value.columns == MergedColumns(Present(series))
  {
    var parts := Present(series);
    if parts == [] then None
    else
      var n := MinRows(parts);
      Some(TimeSeries(Take(parts[0].timeS, n), MergedColumns(parts), seq(n, i requires 0 <= i < n => MergedRow(parts, i))))
  }

  /** The loop that joins the parts side by side over the first `rowCount` rows. */
  method JoinParts(parts: seq<TimeSeries>, rowCount: nat) returns (columns: seq<string>, rows: Rows)
    requires forall p | p in parts :: rowCount <= |p.values|
    ensures columns == MergedColumns(parts)
    ensures |rows| == rowCount && forall i | 0 <= i < rowCount :: rows[i] == MergedRow(parts, i)
  {
    columns := [];
    rows := seq(rowCount, i => []);
    for k := 0 to |parts|
      invariant columns == MergedColumns(parts[..k])
      invariant |rows| == rowCount
      invariant forall p | p in parts[..k] :: rowCount <= |p.values|
      invariant forall i | 0 <= i < rowCount :: rows[i] == MergedRow(parts[..k], i)
    {
      var item := parts[k];
      assert item in parts;
      assert parts[..k + 1][..k] == parts[..k];
      assert forall p | p in parts[..k + 1] :: p in parts;
      columns := columns + item.columns;
      rows := seq(rowCount, i requires 0 <= i < rowCount => rows[i] + item.values[i]);
    }
    assert parts[..|parts|] == parts;
  }

  /** `_merged_timeseries` */
  method MergedTimeSeries(series: seq<Option<TimeSeries>>) returns (r: Option<TimeSeries>)
    ensures r == Merged(series)
  {
    var selected := Present(series);
    if selected == [] {
      return None;
    }
    var rowCount := MinRows(selected);
    var columns, rows := JoinParts(selected, rowCount);
    assert rows == Merged(series).value.values;
    r := Some(TimeSeries(Take(selected[0].timeS, rowCount), columns, rows));
  }

  /** The parts are the series that have rows, in the order given. */
  lemma PresentInOrder(before: seq<Option<TimeSeries>>, s: Option<TimeSeries>)
    ensures Present(before + [s]) == Present(before) + (if s.Some? && s.value.values != [] then [s.value] else [])
    ensures Present([]) == []
  {
    MapFilterSnoc(before, s, HasRows, SeriesIn);
    assert Present(before) + [] == Present(before);
  }

  lemma {:induction false} MergedColumnsAppend(a: seq<TimeSeries>, b: seq<TimeSeries>)
    ensures MergedColumns(a + b) == MergedColumns(a) + MergedColumns(b)
  {
    if b == [] {
      assert a + b == a;
    } else {
      var k := |b| - 1;
      assert (a + b)[..|a + b| - 1] == a + b[..k];
      MergedColumnsAppend(a, b[..k]);
      Assoc(MergedColumns(a), MergedColumns(b[..k]), b[k].columns);
    }
  }

  ghost predicate AllReach(parts: seq<TimeSeries>, index: nat) { forall p | p in parts :: index < |p.values| }

  lemma ReachParts(a: seq<TimeSeries>, b: seq<TimeSeries>, index: nat)
    ensures AllReach(a + b, index) <==> AllReach(a, index) && AllReach(b, index)
  {
    assert forall p | p in a :: p in a + b;
    assert forall p | p in b :: p in a + b;
  }

  lemma MergedRowSnoc(parts: seq<TimeSeries>, p: TimeSeries, index: nat)
    requires AllReach(parts, index) && index < |p.values|
    ensures AllReach(parts + [p], index)
    ensures MergedRow(parts + [p], index) == MergedRow(parts, index) + p.values[index]
  {
    ReachParts(parts, [p], index);
    assert (parts + [p])[..|parts|] == parts;
  }

  lemma {:induction false} MergedRowAppend(a: seq<TimeSeries>, b: seq<TimeSeries>, index: nat)
    requires AllReach(a, index) && AllReach(b, index)
    ensures AllReach(a + b, index) && MergedRow(a + b, index) == MergedRow(a, index) + MergedRow(b, index)
  {
    ReachParts(a, b, index);
    if b == [] {
      assert a + b == a;
    } else {
      var front, last := b[..|b| - 1], b[|b| - 1];
      assert b == front + [last] && a + b == a + front + [last];
      ReachParts(front, [last], index);
      MergedRowAppend(a, front, index);
      MergedRowSnoc(a + front, last, index);
      MergedRowSnoc(front, last, index);
      Assoc(MergedRow(a, index), MergedRow(front, index), last.values[index]);
    }
  }

  // Every part has row `index`, as wide as its columns.
  ghost predicate AllWide(parts: seq<TimeSeries>, index: nat) {
    forall p | p in parts :: index < |p.values| && |p.values[index]| == |p.columns|
  }

  lemma WideParts(a: seq<TimeSeries>, b: seq<TimeSeries>, index: nat)
    requires AllWide(a + b, index)
    ensures AllWide(a, index) && AllWide(b, index) && AllReach(a, index) && AllReach(b, index)
  {
    assert forall p | p in a :: p in a + b;
    assert forall p | p in b :: p in a + b;
  }

  lemma {:induction false} MergedWidth(parts: seq<TimeSeries>, index: nat)
    requires AllWide(parts, index)
    ensures |MergedRow(parts, index)| == |MergedColumns(parts)|
  {
    if parts != [] {
      var k := |parts| - 1;
      assert parts == parts[..k] + [parts[k]];
      WideParts(parts[..k], [parts[k]], index);
      MergedWidth(parts[..k], index);
    }
  }

  lemma PlaceIn<T>(a: seq<T>, b: seq<T>, c: seq<T>, j: nat)
    requires j < |b|
    ensures (a + (b + c))[|a| + j] == b[j]
  {
  }

  /** A merged value stands under the column it came from: in parts as wide as their columns, entry `j` of a part's row is
      merged to the place of the part's column `j`. */
  lemma MergedColumnPlaces(before: seq<TimeSeries>, p: TimeSeries, after: seq<TimeSeries>, index: nat, j: nat)
    requires true == AllWide(before + ([p] + after), index) && j < |p.columns|
    ensures var parts := before + ([p] + after); var at := |MergedColumns(before)| + j;
      && AllReach(parts, index) && index < |p.values| && |p.values[index]| == |p.columns|
      && at < |MergedColumns(parts)| == |MergedRow(parts, index)|
      && MergedColumns(parts)[at] == p.columns[j] && MergedRow(parts, index)[at] == p.values[index][j]
  {
    var rest := [p] + after;
    WideParts(before, rest, index);
    WideParts([p], after, index);
    assert p in [p];
    MergedWidth(before + rest, index);
    MergedWidth(before, index);
    MergedColumnsAppend(before, rest);
    MergedColumnsAppend([p], after);
    MergedRowAppend(before, rest, index);
    MergedRowAppend([p], after, index);
    OnePart(p, index);
    PlaceIn(MergedColumns(before), p.columns, MergedColumns(after), j);
    PlaceIn(MergedRow(before, index), p.values[index], MergedRow(after, index), j);
  }

  lemma OnePart(p: TimeSeries, index: nat)
    requires index < |p.values|
    ensures MergedColumns([p]) == p.columns && MergedRow([p], index) == p.values[index]
  {
    assert [p][..0] == [];
  }

  lemma {:induction false} MergedRowCovers(parts: seq<TimeSeries>, index: nat, p: TimeSeries)
    requires (forall q | q in parts :: index < |q.values|) && p in parts
    ensures Covers(MergedRow(parts, index), p.values[index])
  {
    var k := |parts| - 1;
    assert parts == parts[..k] + [parts[k]];
    if p in parts[..k] {
      MergedRowCovers(parts[..k], index, p);
    }
  }

  ghost predicate RowwiseWithin(rows: Rows, wide: Rows) {
    |rows| <= |wide| && forall i | 0 <= i < |rows| :: Covers(wide[i], rows[i])
  }

  ghost predicate Covers(wide: seq<real>, row: seq<real>) { forall x | x in row :: x in wide }

  lemma CoveredEntry(wide: seq<real>, row: seq<real>)
    requires Covers(wide, row) && row != []
    ensures wide != []
  {
    var x := row[0];
    assert x in row;
  }

  lemma WiderRowsSpreadFurther(rows: Rows, wide: Rows)
    requires RowwiseWithin(rows, wide) && HasData(rows)
    ensures MaxRowSpread(rows).Some? && MaxRowSpread(wide).Some?
    ensures MaxRowSpread(rows).value <= MaxRowSpread(wide).value
  {
    var row :| row in rows && row != [];
    var i :| 0 <= i < |rows| && rows[i] == row;
    CoveredEntry(wide[i], rows[i]);
    assert wide[i] in wide;
    AngleMeaning(wide, 0.0);
    var limit := MaxRowSpread(wide).value;
    AngleMeaning(wide, limit);
    AngleMeaning(rows, limit);
    forall row', x, y | row' in rows && x in row' && y in row' ensures x - y <= limit {
      var j :| 0 <= j < |rows| && rows[j] == row';
      assert Covers(wide[j], rows[j]) && wide[j] in wide;
    }
  }

  /** Over the rows all parts have, the merged series spreads at least as far as each part. */
  lemma MergedSpreadDominates(parts: seq<TimeSeries>, merged: TimeSeries, p: TimeSeries)
    requires p in parts && forall q | q in parts :: |merged.values| <= |q.values|
    requires forall i | 0 <= i < |merged.values| :: merged.values[i] == MergedRow(parts, i)
    ensures var part := MaxRowSpread(p.values[..|merged.values|]);
      part.Some? ==> MaxRowSpread(merged.values).Some? && part.value <= MaxRowSpread(merged.values).value
  {
    var rows := p.values[..|merged.values|];
    forall i | 0 <= i < |rows| ensures Covers(merged.values[i], rows[i]) {
      MergedRowCovers(parts, i, p);
    }
    AngleMeaning(rows, 0.0);
    if HasData(rows) {
      WiderRowsSpreadFurther(rows, merged.values);
    }
  }

  lemma SplitWithin(rows: Rows, m: nat, limit: real)
    requires m <= |rows|
    ensures AngleWithin(rows, limit) <==> AngleWithin(rows[..m], limit) && AngleWithin(rows[m..], limit)
  {
    assert rows == rows[..m] + rows[m..];
    assert forall row | row in rows :: row in rows[..m] || row in rows[m..];
    assert forall row | row in rows[..m] :: row in rows;
    assert forall row | row in rows[m..] :: row in rows;
  }

  /** Where the merged series keeps a limit, a part keeps it exactly if its rows beyond the common ones do; a part with no
      such rows always does. */
  lemma MergedHidesOnlyTheTail(series: seq<Option<TimeSeries>>, p: TimeSeries, limit: real)
    requires p in Present(series) && AngleWithin(Merged(series).value.values, limit)
    ensures var m := |Merged(series).value.values|;
      && m <= |p.values|
      && (AngleWithin(p.values, limit) <==> AngleWithin(p.values[m..], limit))
      && (|p.values| == m ==> AngleWithin(p.values, limit))
  {
    var parts, merged := Present(series), Merged(series).value;
    var rows := p.values[..|merged.values|];
    SplitWithin(p.values, |rows|, limit);
    forall row, x, y | row in rows && x in row && y in row ensures x - y <= limit {
      var i :| 0 <= i < |rows| && rows[i] == row;
      MergedRowCovers(parts, i, p);
      assert merged.values[i] in merged.values;
    }
  }

  /** In terms of spreads: the merged spread dominates a part's exactly if it dominates that of the rows it drops. */
  lemma MergedSpreadExact(series: seq<Option<TimeSeries>>, p: TimeSeries)
    requires p in Present(series) && MaxRowSpread(Merged(series).value.values).Some?
    ensures var merged := Merged(series).value.values; var limit := MaxRowSpread(merged).value;
      var whole, dropped := MaxRowSpread(p.values), MaxRowSpread(p.values[|merged|..]);
      (whole.Some? ==> whole.value <= limit) <==> (dropped.Some? ==> dropped.value <= limit)
  {
    var merged := Merged(series).value.values;
    var limit := MaxRowSpread(merged).value;
    AngleMeaning(merged, limit);
    MergedHidesOnlyTheTail(series, p, limit);
    AngleMeaning(p.values, limit);
    AngleMeaning(p.values[|merged|..], limit);
    NoDataWithin(p.values, limit);
    NoDataWithin(p.values[|merged|..], limit);
  }

  /** The verdict on a trace whose merged angles do not fail: judged by one part's own angles it fails exactly if that part
      exceeds the threshold in a row the merge dropped, so never when the parts have equally many rows. */
  lemma MergingHidesExcess(series: seq<Option<TimeSeries>>, p: TimeSeries, b: Bundle, converged: bool, t: Thresholds)
    requires p in Present(series) && b.angle == Merged(series) && !Stability(b, converged, t).Fail?
    ensures var m := |b.angle.value.values|;
      && m <= |p.values|
      && (Stability(b.(angle := Some(p)), converged, t).Fail? <==> !AngleWithin(p.values[m..], t.maxAngleSpread))
      && (|p.values| == m ==> !Stability(b.(angle := Some(p)), converged, t).Fail?)
  {
    StabilityMeaning(b, converged, t);
    StabilityMeaning(b.(angle := Some(p)), converged, t);
    MergedHidesOnlyTheTail(series, p, t.maxAngleSpread);
  }

  lemma MergedSpeedTail(series: seq<Option<TimeSeries>>, p: TimeSeries, limit: real)
    requires p in Present(series) && SpeedWithin(Merged(series).value.values, limit)
    ensures var m := |Merged(series).value.values|;
      m <= |p.values| && (SpeedWithin(p.values, limit) <==> SpeedWithin(p.values[m..], limit))
  {
    var parts, merged := Present(series), Merged(series).value;
    var m := |merged.values|;
    forall row, v | row in p.values[..m] && v in row ensures -limit <= v - 1.0 <= limit {
      var i :| 0 <= i < m && p.values[..m][i] == row;
      MergedRowCovers(parts, i, p);
      assert merged.values[i] in merged.values;
    }
    SplitSpeed(p.values, m, limit);
  }

  lemma SplitSpeed(rows: Rows, m: nat, limit: real)
    requires m <= |rows|
    ensures SpeedWithin(rows, limit) <==> SpeedWithin(rows[..m], limit) && SpeedWithin(rows[m..], limit)
  {
    assert rows == rows[..m] + rows[m..];
    assert forall row | row in rows :: row in rows[..m] || row in rows[m..];
    assert forall row | row in rows[..m] :: row in rows;
    assert forall row | row in rows[m..] :: row in rows;
  }

  /** The same for generator speeds, which are merged alike. */
  lemma MergingHidesSpeedExcess(series: seq<Option<TimeSeries>>, p: TimeSeries, b: Bundle, converged: bool, t: Thresholds)
    requires p in Present(series) && b.speed == Merged(series) && !Stability(b, converged, t).Fail?
    ensures var m := |b.speed.value.values|;
      && m <= |p.values|
      && (Stability(b.(speed := Some(p)), converged, t).Fail? <==> !SpeedWithin(p.values[m..], t.maxSpeedDeviation))
      && (|p.values| == m ==> !Stability(b.(speed := Some(p)), converged, t).Fail?)
  {
    StabilityMeaning(b, converged, t);
    StabilityMeaning(b.(speed := Some(p)), converged, t);
    MergedSpeedTail(series, p, t.maxSpeedDeviation);
  }

  const SHORT_PART := TimeSeries([0.0], ["1"], [[0.0]])
  const LONG_PART := TimeSeries([0.0, 1.0], ["1", "2"], [[0.0, 0.0], [0.0, 9.0]])

  lemma MergedExample()
    ensures Merged([Some(SHORT_PART), Some(LONG_PART)]).Some?
    ensures var merged := Merged([Some(SHORT_PART), Some(LONG_PART)]).value.values; |merged| == 1 && merged[0] == [0.0, 0.0, 0.0]
  {
    var series := [Some(SHORT_PART), Some(LONG_PART)];
    FilterAll(series, HasRows);
    var parts := Present(series);
    assert parts == [SHORT_PART, LONG_PART];
    MergedRowOfTwo(SHORT_PART, LONG_PART);
    assert [0.0] + [0.0, 0.0] == [0.0, 0.0, 0.0];
  }

  lemma FlatSpread(rows: Rows)
    requires |rows| == 1 && rows[0] == [0.0, 0.0, 0.0]
    ensures MaxRowSpread(rows) == Some(0.0)
  {
    assert rows[0][0] == 0.0;
    SpreadOf(rows, rows[0], 0.0, 0.0);
  }

  lemma LongPartSpread()
    ensures MaxRowSpread(LONG_PART.values) == Some(9.0)
  {
    var rows := LONG_PART.values;
    assert rows[1] == [0.0, 9.0] && rows[1][1] == 9.0 && rows[1][0] == 0.0;
    SpreadOf(rows, rows[1], 9.0, 0.0);
  }

  lemma MergedRowOfTwo(a: TimeSeries, b: TimeSeries)
    requires a.values != [] && b.values != []
    ensures MergedRow([a, b], 0) == a.values[0] + b.values[0]
  {
    assert [a, b][..1] == [a] && [a][..0] == [];
    assert MergedRow([a], 0) == [] + a.values[0] == a.values[0];
  }

  /** Beyond the common rows a part can spread further than the merged series shows. */
  lemma MergedDropsTail()
    ensures var merged := Merged([Some(SHORT_PART), Some(LONG_PART)]);
      merged.Some? && MaxRowSpread(merged.value.values) == Some(0.0) && MaxRowSpread(LONG_PART.values) == Some(9.0)
  {
    MergedExample();
    FlatSpread(Merged([Some(SHORT_PART), Some(LONG_PART)]).value.values);
    LongPartSpread();
  }

  lemma SpreadOf(rows: Rows, row: seq<real>, x: real, y: real)
    requires row in rows && x in row && y in row && AngleWithin(rows, x - y)
    ensures MaxRowSpread(rows) == Some(x - y)
  {
    assert row != [];
    AngleMeaning(rows, x - y);
    var top := MaxRowSpread(rows).value;
    AngleMeaning(rows, top);
    assert top <= x - y <= top;
  }
}
