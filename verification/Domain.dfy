/** Vocabulary shared by the daemon's safety boundary: risk, scope, autonomy levels. */
module Domain {

  datatype Option<+T> = None | Some(value: T)

  const U32_MAX: nat := 0xFFFF_FFFF

  /** A saturating counter's reading of `n`. */
  function Saturate(n: nat, max: nat): nat {
    if n > max then max else n
  }

  datatype RiskClass = Read | LowRisk | Controlled | HighRisk | Destructive

  datatype BlastRadius = Nothing | Host | Environment | Fleet

  datatype PolicyOutcome = Allow | Deny | RequireApproval

  /** The operator's L0 to L5 levels. */
  datatype AutonomyMode =
    | L0Observe
    | L1Explain
    | L2Recommend
    | L3Assisted
    | L4Autonomous
    | L5Adaptive
  {
    function Rank(): nat {
      match this
      case L0Observe => 0
      case L1Explain => 1
      case L2Recommend => 2
      case L3Assisted => 3
      case L4Autonomous => 4
      case L5Adaptive => 5
    }

    function LowerOf(other: AutonomyMode): AutonomyMode {
      if Rank() <= other.Rank() then this else other
    }

    /** One rung up the promotion ladder L0, L2, L3, L4; nothing above L4. */
    function NextRung(): Option<AutonomyMode> {
      match this
      case L0Observe => Some(L2Recommend)
      case L1Explain => Some(L2Recommend)
      case L2Recommend => Some(L3Assisted)
      case L3Assisted => Some(L4Autonomous)
      case L4Autonomous => None
      case L5Adaptive => None
    }

    /** One rung down: L4, L3, L2, L0. */
    function DemoteRung(): AutonomyMode {
      match this
      case L3Assisted => L2Recommend
      case L4Autonomous => L3Assisted
      case L5Adaptive => L3Assisted
      case _ => L0Observe
    }
  }
}
