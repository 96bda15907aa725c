/** Stage reports and recommendations shared by the assessment tools. */
module Stages {
  import opened Prelude

  datatype Status =
    | Pass | BorderlineStatus | Fail
    | Skipped | NotRun | NotImplemented | NotReady | Unavailable | Error

  datatype Recommendation = Approve | BorderlineVerdict | Reject

  datatype StageName = F1SteadyState | F2Contingency | F3Transient | F4Emt

  datatype Stage = Stage(name: StageName, status: Status, passed: Option<bool>, reasonCodes: seq<string>)

  // approve > borderline > reject
  function VerdictRank(r: Recommendation): nat {
    match r case Approve => 2 case BorderlineVerdict => 1 case Reject => 0
  }

  // pass > borderline > fail, on the three screening outcomes
  function OutcomeRank(s: Status): nat {
    match s case Pass => 2 case BorderlineStatus => 1 case _ => 0
  }
}
