/** What the deterministic tools see of a power-flow solver: connections, outages, findings. */
module GridModel {
  import opened Prelude
  import opened Rounding

  datatype Severity = Borderline | Hard

  // The inspector's whole vocabulary.
  datatype ElementType = BusElement | LineElement | TransformerElement

  datatype ViolationType = LowVoltage | HighVoltage | ThermalLoading | AngleDifference

  datatype LimitRelation = AtLeast | AtMost

  // An element index that does not parse is reported as -1.
  datatype Violation = Violation(
    elementType: ElementType,
    elementIndex: int,
    violationType: ViolationType,
    severity: Severity,
    limitRelation: LimitRelation,
    limitValue: real,
    marginPercent: real)

  // Identity of a finding across studies; the limit is compared to nine decimals.
  datatype ViolationKey = ViolationKey(
    elementType: ElementType,
    elementIndex: int,
    violationType: ViolationType,
    limitRelation: LimitRelation,
    limit: int)

  function KeyOf(v: Violation): ViolationKey {
    ViolationKey(v.elementType, v.elementIndex, v.violationType, v.limitRelation, Round9(v.limitValue))
  }

  function Rank(s: Severity): nat { if s.Hard? then 2 else 1 }

  predicate IsHard(v: Violation) { v.severity.Hard? }

  predicate IsBorderline(v: Violation) { v.severity.Borderline? }

  datatype Connection = Connection(
    bus: int,
    pMw: real,
    connectionType: string,
    isIbr: bool,
    qMvar: real,
    vmPu: real)

  const IBR_TYPES := {"solar", "wind", "bess", "hybrid"}

  function EffectiveIsIbr(c: Connection): bool {
    c.isIbr || c.connectionType in IBR_TYPES
  }

  /** Of the types a connection may have, only loads and synchronous machines are not power-electronic by themselves. */
  lemma ElectronicTypes(c: Connection)
    requires c.connectionType in CONNECTION_TYPES
    ensures EffectiveIsIbr(c) <==> c.isIbr || c.connectionType !in {"load", "synchronous"}
  {
    assert |"load"| == 4 && |"synchronous"| == 11 && |"solar"| == 5 && |"hybrid"| == 6;
    assert "load"[0] == 'l' && "wind"[0] == 'w' && "bess"[0] == 'b';
  }

  // What the solver offers to switch off.
  datatype OutageType = LineOutage | TransformerOutage

  datatype Contingency = Contingency(elementType: OutageType, elementIndex: int)

  // A power flow either fails or yields the findings under the study and the emergency limit profiles.
  datatype Flow = Diverged(error: string) | Converged(normal: seq<Violation>, emergency: seq<Violation>)

  /** The solver as an arbitrary deterministic oracle on (connection, outage). `resolveBus` is the error raised for a bus
      that is unknown or ambiguous, None for a usable one; `strength` is None where the short-circuit estimate raises;
      `hypot` is the apparent power of a P, Q pair. */
  datatype Grid = Grid(
    resolveBus: int -> Option<string>,
    flow: (Option<Connection>, Option<Contingency>) -> Flow,
    outages: Option<Connection> -> seq<Contingency>,
    strength: Connection -> Option<real>,
    hypot: (real, real) -> real)

  const CONNECTION_TYPES := {"load", "solar", "wind", "bess", "hybrid", "synchronous"}
  const NEGATIVE_MW := "Connection p_mw must be non-negative"
  const UNSUPPORTED_TYPE := "Unsupported connection_type"

  /** What `add_connection` raises, None when the connection can be attached; its type is already in lower case. */
  function AttachError(grid: Grid, c: Connection): (r: Option<string>)
    ensures r.None? <==> c.pMw >= 0.0 && c.connectionType in CONNECTION_TYPES && grid.resolveBus(c.bus).None?
    ensures c.pMw >= 0.0 && c.connectionType in CONNECTION_TYPES ==> r == grid.resolveBus(c.bus)
    ensures c.pMw < 0.0 ==> r == Some(NEGATIVE_MW)
  {
    if c.pMw < 0.0 then Some(NEGATIVE_MW)
    else if c.connectionType !in CONNECTION_TYPES then Some(UNSUPPORTED_TYPE)
    else grid.resolveBus(c.bus)
  }
}
