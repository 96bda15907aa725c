/** Short-circuit-ratio screening of a proposed connection. */
module Emt {
  import opened Prelude
  import opened GridModel
  import opened Stages

  const DEFAULT_SCR_THRESHOLD := 3.0
  const DEFAULT_BORDERLINE_MARGIN := 0.25
  const SCR_ABOVE := "emt_scr_above_threshold"
  const SCR_NEAR := "emt_scr_near_threshold"
  const SCR_BELOW := "emt_scr_below_threshold"
  const NOT_REQUIRED := "emt_screen_not_required_for_non_ibr_connection"
  const NO_SIZE := "emt_project_mva_must_be_positive"
  const POST_FLOW_FAILED := "emt_post_connection_powerflow_failed"

  datatype EmtResult =
    | Returned(ok: bool, status: Status, passed: bool, scr: Option<real>, reasonCodes: seq<string>, applied: bool)
    | Raised(error: string)

  function ScrStatus(scr: real, threshold: real, margin: real): (Status, bool, seq<string>) {
    if scr >= threshold + margin then (Pass, true, [SCR_ABOVE])
    else if scr >= threshold then (BorderlineStatus, false, [SCR_NEAR])
    else (Fail, false, [SCR_BELOW])
  }

  /** `EMTScreeningRunner.run` */
  function RunEmt(grid: Grid, c: Connection, threshold: real, margin: real): EmtResult {
    if threshold <= 0.0 then Raised("scr_threshold must be a positive finite number")
    else if margin < 0.0 then Raised("borderline_margin must be a non-negative finite number")
    else if !EffectiveIsIbr(c) then
      Returned(true, Skipped, true, None, [NOT_REQUIRED], false)
    else
      var mva := grid.hypot(c.pMw, c.qMvar);
      if mva <= 0.0 then Returned(true, Fail, false, None, [NO_SIZE], false)
      else if AttachError(grid, c).Some? then Raised(AttachError(grid, c).value)
      else if grid.flow(Some(c), None).Diverged? then
        Returned(false, Error, false, None, [POST_FLOW_FAILED], true)
      else match grid.strength(c)
        case None => Raised("SCR screening data is unavailable")
        case Some(strength) =>
          if strength <= 0.0 then Raised("short_circuit_mva must be positive and finite")
          else
            var (status, passed, codes) := ScrStatus(strength / mva, threshold, margin);
            Returned(true, status, passed, Some(strength / mva), codes, true)
  }

  lemma QuotientBound(s: real, m: real, t: real)
    requires m > 0.0
    ensures s / m >= t <==> s >= t * m
  {
    var q := s / m;
    assert q * m == s;
    assert (q - t) * m == s - t * m;
  }

  predicate HasStrength(grid: Grid, c: Connection) { grid.strength(c).Some? && grid.strength(c).value > 0.0 }

  /** The project can be attached, solves, and has a usable strength and size to screen. */
  predicate Screenable(grid: Grid, c: Connection) {
    EffectiveIsIbr(c) && grid.hypot(c.pMw, c.qMvar) > 0.0 && AttachError(grid, c).None? && grid.flow(Some(c), None).Converged? && HasStrength(grid, c)
  }

  /** What the screen means: a project with valid thresholds passes exactly if the strength covers its size at the
      threshold plus margin, fails if it has no size or the strength does not cover it at the threshold, and is
      borderline in between; it raises exactly where it cannot be attached or no usable strength is to be had. */
  lemma ScreenMeaning(grid: Grid, c: Connection, threshold: real, margin: real)
    requires threshold > 0.0 && margin >= 0.0
    ensures var r := RunEmt(grid, c, threshold, margin); var mva := grid.hypot(c.pMw, c.qMvar);
      && (r.Raised? <==> (EffectiveIsIbr(c) && mva > 0.0
            && (AttachError(grid, c).Some? || (grid.flow(Some(c), None).Converged? && !HasStrength(grid, c)))))
      && (r.Returned? ==> (r.ok <==> !EffectiveIsIbr(c) || mva <= 0.0 || grid.flow(Some(c), None).Converged?))
      && (r.Returned? && r.status.Skipped? <==> !EffectiveIsIbr(c))
      && (r.Returned? && r.status.Pass? <==> Screenable(grid, c) && grid.strength(c).value >= (threshold + margin) * mva)
      && (r.Returned? && r.status.BorderlineStatus? <==>
            (Screenable(grid, c) && threshold * mva <= grid.strength(c).value < (threshold + margin) * mva))
      && (r.Returned? && r.status.Fail? <==>
            (EffectiveIsIbr(c) && mva <= 0.0) || (Screenable(grid, c) && grid.strength(c).value < threshold * mva))
      && (r.Returned? ==> (r.passed <==> r.status.Pass? || r.status.Skipped?))
  {
    if Screenable(grid, c) {
      QuotientBound(grid.strength(c).value, grid.hypot(c.pMw, c.qMvar), threshold);
      QuotientBound(grid.strength(c).value, grid.hypot(c.pMw, c.qMvar), threshold + margin);
    }
  }

  /** What the screen reports besides: the ratio of strength to size where there is one, whether the project was attached,
      and the one reason for its status. */
  lemma ScreenReport(grid: Grid, c: Connection, threshold: real, margin: real)
    requires RunEmt(grid, c, threshold, margin).Returned?
    ensures var r := RunEmt(grid, c, threshold, margin); var mva := grid.hypot(c.pMw, c.qMvar);
      && (r.scr.Some? <==> Screenable(grid, c))
      && (r.scr.Some? ==> r.scr.value * mva == grid.strength(c).value)
      && (r.applied <==> EffectiveIsIbr(c) && mva > 0.0)
      && r.reasonCodes == [
           if !EffectiveIsIbr(c) then NOT_REQUIRED else if mva <= 0.0 then NO_SIZE
           else if grid.flow(Some(c), None).Diverged? then POST_FLOW_FAILED
           else if r.status.Pass? then SCR_ABOVE else if r.status.BorderlineStatus? then SCR_NEAR else SCR_BELOW]
  {
  }

  ghost predicate IsHypot(hypot: (real, real) -> real) {
    forall p, q :: hypot(p, q) >= 0.0 && hypot(p, q) * hypot(p, q) == p * p + q * q
  }

  function Abs(x: real): real { if x < 0.0 then -x else x }

  lemma SquareMonotone(a: real, b: real)
    requires Abs(a) <= Abs(b)
    ensures a * a <= b * b
  {
  }

  lemma SquareStrict(y: real, x: real)
    requires 0.0 <= y < x
    ensures y * y < x * x
  {
    var xx, xy, yy := x * x, x * y, y * y;
    assert xy - yy == (x - y) * y >= 0.0;
    assert xx - xy == (x - y) * x > 0.0;
  }

  lemma RootMonotone(x: real, y: real)
    requires 0.0 <= x && 0.0 <= y && x * x <= y * y
    ensures x <= y
  {
    if x > y {
      SquareStrict(y, x);
    }
  }

  lemma QuotientAntitone(s: real, m: real, m': real)
    requires s > 0.0 && 0.0 < m <= m'
    ensures s / m' <= s / m
  {
  }

  /** The status of a screen that gets as far as the project's size. */
  function ScreenedStatus(strength: real, mva: real, threshold: real, margin: real): Status {
    if mva <= 0.0 then Fail else ScrStatus(strength / mva, threshold, margin).0
  }

  lemma LargerIsNoBetter(strength: real, m: real, m': real, threshold: real, margin: real)
    requires strength > 0.0 && margin >= 0.0 && 0.0 <= m <= m'
    ensures OutcomeRank(ScreenedStatus(strength, m', threshold, margin)) <= OutcomeRank(ScreenedStatus(strength, m, threshold, margin))
      <==> (m > 0.0 || ScreenedStatus(strength, m', threshold, margin).Fail?)
  {
    if m > 0.0 {
      QuotientAntitone(strength, m, m');
    }
  }

  /** More active or reactive power at the same point makes the project larger, and does not improve the screening
      outcome, unless there was none before: a project of size zero fails whatever the strength, so exactly then any
      power that does not fail is better. */
  lemma ScreenAntitone(hypot: (real, real) -> real, strength: real, p: real, q: real, p': real, q': real, threshold: real, margin: real)
    requires IsHypot(hypot) && strength > 0.0 && margin >= 0.0
    requires Abs(p) <= Abs(p') && Abs(q) <= Abs(q')
    ensures hypot(p', q') >= hypot(p, q)
    ensures OutcomeRank(ScreenedStatus(strength, hypot(p', q'), threshold, margin))
         <= OutcomeRank(ScreenedStatus(strength, hypot(p, q), threshold, margin))
      <==> (hypot(p, q) > 0.0 || ScreenedStatus(strength, hypot(p', q'), threshold, margin).Fail?)
  {
    SquareMonotone(p, p');
    SquareMonotone(q, q');
    RootMonotone(hypot(p, q), hypot(p', q'));
    LargerIsNoBetter(strength, hypot(p, q), hypot(p', q'), threshold, margin);
  }

  // Nothing stands between the project and its screen.
  predicate Screens(grid: Grid, c: Connection) {
    EffectiveIsIbr(c) && AttachError(grid, c).None? && grid.flow(Some(c), None).Converged? && HasStrength(grid, c)
  }

  /** The same of the screen itself, for two projects that meet the same strength. */
  lemma RunAntitone(grid: Grid, c: Connection, d: Connection, threshold: real, margin: real)
    requires IsHypot(grid.hypot) && threshold > 0.0 && margin >= 0.0
    requires Screens(grid, c) && Screens(grid, d) && grid.strength(c) == grid.strength(d)
    requires Abs(c.pMw) <= Abs(d.pMw) && Abs(c.qMvar) <= Abs(d.qMvar)
    ensures var r, r' := RunEmt(grid, c, threshold, margin), RunEmt(grid, d, threshold, margin);
      && r.Returned? && r'.Returned?
      && (OutcomeRank(r'.status) <= OutcomeRank(r.status) <==> (grid.hypot(c.pMw, c.qMvar) > 0.0 || r'.status.Fail?))
  {
    ScreenAntitone(grid.hypot, grid.strength(c).value, c.pMw, c.qMvar, d.pMw, d.qMvar, threshold, margin);
  }
}
