/** The deterministic gates a plan step crosses: risk table, autonomy matrix, escalation. */
module Policy {
  import opened Domain

  datatype Action = Action(capability: string, arguments: map<string, string>)

  datatype PlanStep = PlanStep(action: Action, rollback: Option<Action>)

  datatype Plan = Plan(steps: seq<PlanStep>, blastRadius: BlastRadius, confidence: real)

  datatype Descriptor = Descriptor(risk: RiskClass, requiresApproval: bool, blastRadius: Option<BlastRadius>)

  type Registry = map<string, Descriptor>

  predicate IsMcp(capability: string) {
    "mcp." <= capability
  }

  predicate IsServiceAction(capability: string) {
    capability in {"host.service.restart", "host.service.stop", "host.service.start"}
  }

  predicate IsKubernetesAction(capability: string) {
    capability in {"k8s.pod.restart", "k8s.pod.delete", "k8s.deployment.restart", "k8s.deployment.rollback",
                   "k8s.workload.scale", "k8s.node.cordon", "k8s.node.uncordon", "k8s.job.cleanup",
                   "k8s.cluster.read", "k8s.node.read", "k8s.pod.read", "k8s.deployment.read"}
  }

  predicate IsRemediationAction(capability: string) {
    || capability in {"host.process.signal", "container.restart", "host.cgroup.freeze", "host.cgroup.thaw",
                      "host.memory.reclaim", "host.journal.vacuum"}
    || IsMcp(capability)
  }

  /** The static family table. */
  function RiskFor(capability: string): RiskClass {
    if capability in {"host.service.restart", "host.service.stop", "host.service.start",
                      "host.cgroup.freeze", "host.cgroup.thaw"} then LowRisk
    else if capability in {"host.process.signal", "k8s.pod.delete",
                           "k8s.node.drain", "k8s.workload.reschedule"} then HighRisk
    else if IsMcp(capability) then HighRisk
    else Controlled
  }

  /** The risk a step is governed by: external tools read their own descriptor. */
  function GovernedRisk(capability: string, registry: Registry): RiskClass {
    if IsMcp(capability) && capability in registry then registry[capability].risk else RiskFor(capability)
  }

  /** The autonomy matrix. */
  predicate MayExecute(mode: AutonomyMode, risk: RiskClass) {
    match mode
    case L3Assisted => risk.Read? || risk.LowRisk?
    case L4Autonomous => risk.Read? || risk.LowRisk? || risk.Controlled?
    case L5Adaptive => risk.Read? || risk.LowRisk? || risk.Controlled?
    case _ => false
  }

  datatype Criticality = Protected | Critical | Standard | BestEffort

  datatype Site = Production | Staging | Development

  datatype Evidence = Sparse | Adequate | Strong

  datatype Escalation = Observe | Explain | Recommend | AskHuman | AutoFix

  datatype EscalationInput = EscalationInput(
    evidence: Evidence,
    confidence: real,
    reversible: bool,
    blastRadius: BlastRadius,
    risk: RiskClass,
    criticality: Criticality,
    site: Site,
    history: Option<real>,
    autonomy: AutonomyMode,
    policy: PolicyOutcome)

  function ConfidenceThreshold(site: Site): real {
    match site
    case Production => 0.75
    case Staging => 0.6
    case Development => 0.5
  }

  predicate SafeToFix(input: EscalationInput) {
    && input.reversible
    && (input.blastRadius.Nothing? || input.blastRadius.Host?)
    && !input.criticality.Protected? && !input.criticality.Critical?
    && (input.risk.Read? || input.risk.LowRisk? || input.risk.Controlled?)
    && input.confidence >= ConfidenceThreshold(input.site)
    && (input.history.Some? ==> input.history.value >= 0.7)
    && !input.evidence.Sparse?
  }

  function DecideEscalation(input: EscalationInput): Escalation {
    match input.policy
    case Deny => Observe
    case RequireApproval => AskHuman
    case Allow =>
      match input.autonomy
      case L0Observe => Observe
      case L1Explain => Explain
      case L2Recommend => Recommend
      case _ =>
        if SafeToFix(input) then AutoFix
        else if input.evidence.Sparse? then Recommend
        else AskHuman
  }

  predicate EscalationBounded(autonomy: AutonomyMode) {
    autonomy.L4Autonomous? || autonomy.L5Adaptive?
  }

  function Clamp01(x: real): real {
    if x < 0.0 then 0.0 else if x > 1.0 then 1.0 else x
  }

  /** The nearest integer, ties to the even one. */
  function RoundEven(n: real): int {
    var f := n.Floor;
    var d := n - f as real;
    if d < 0.5 || (d == 0.5 && f % 2 == 0) then f else f + 1
  }

  /**
   * A confidence in single precision: between one half and one the nearest multiple of 2^-24. Below one half
   * rounding stays at or below one half, under every threshold it meets here, and is left undone.
   */
  function Single(x: real): real {
    if x < 0.5 || x > 1.0 then x else RoundEven(x * 16777216.0) as real / 16777216.0
  }

  /** The least confidence that rounds to the production threshold. */
  const CONFIDENT: real := 0.75 - 1.0 / 33554432.0

  lemma SingleReaches(x: real)
    ensures Single(Clamp01(x)) >= 0.75 <==> x >= CONFIDENT
  {
    var y := Clamp01(x);
    if 0.5 <= y {
      var n := y * 16777216.0;
      assert n >= 12582911.5 <==> y >= CONFIDENT;
      RoundReaches(n, 12582912);
    }
  }

  /** Rounding reaches an even number exactly from half below it. */
  lemma RoundReaches(n: real, even: int)
    requires even % 2 == 0
    ensures RoundEven(n) >= even <==> n >= even as real - 0.5
  {
  }

  /** Whether the escalation decision is to fix automatically, for step `index` of `plan`. */
  predicate EscalationPermits(plan: Plan, registry: Registry, index: nat, autonomy: AutonomyMode, risk: RiskClass)
    requires index < |plan.steps|
  {
    var step := plan.steps[index];
    var capability := step.action.capability;
    var reversible :=
      (step.rollback.Some? && step.rollback.value.capability != capability) || risk.Read?;
    var declared := capability in registry && registry[capability].blastRadius.Some?;
    DecideEscalation(EscalationInput(
                       Adequate,
                       Single(Clamp01(plan.confidence)),
                       reversible,
                       if declared then registry[capability].blastRadius.value else plan.blastRadius,
                       if declared then registry[capability].risk else risk,
                       Standard,
                       Production,
                       None,
                       autonomy,
                       Allow)) == AutoFix
  }

  /** The machine-checkable state a capability aims at, when it has one. */
  function DesiredState(capability: string): Option<bool> {
    if capability in {"host.service.start", "host.service.restart", "container.restart", "host.cgroup.freeze",
                      "k8s.pod.restart", "k8s.deployment.restart", "k8s.deployment.rollback",
                      "k8s.node.uncordon"} then Some(true)
    else if capability in {"host.service.stop", "host.cgroup.thaw", "k8s.pod.delete", "k8s.node.cordon"} then Some(false)
    else None
  }

  lemma ExternalToolsAreHighRisk(capability: string)
    requires IsMcp(capability)
    ensures RiskFor(capability).HighRisk?
  {
    assert capability[0] == 'm';
  }

  /**
   * What automatic execution can ever touch: without an operator's grant a step needs L3 or
   * above; an unregistered external tool never qualifies; and at L4/L5 the step can also be
   * undone by a different capability, reaches at most one host, and is backed by a confidence that rounds to 0.75.
   */
  lemma AutomaticReach(plan: Plan, registry: Registry, index: nat, autonomy: AutonomyMode)
    requires index < |plan.steps|
    requires var risk := GovernedRisk(plan.steps[index].action.capability, registry);
             && MayExecute(autonomy, risk)
             && (EscalationBounded(autonomy) ==> EscalationPermits(plan, registry, index, autonomy, risk))
    ensures autonomy.Rank() >= 3
    ensures var step := plan.steps[index];
            var capability := step.action.capability;
            var risk := GovernedRisk(capability, registry);
            && !risk.HighRisk? && !risk.Destructive?
            && (autonomy.L3Assisted? ==> !risk.Controlled?)
            && (IsMcp(capability) ==> capability in registry)
            && (EscalationBounded(autonomy) ==>
                  && plan.confidence >= CONFIDENT
                  && (risk.Read? || (step.rollback.Some? && step.rollback.value.capability != capability))
                  && (capability in registry && registry[capability].blastRadius.Some?
                      ==> registry[capability].blastRadius.value in {Nothing, Host})
                  && (!(capability in registry && registry[capability].blastRadius.Some?)
                      ==> plan.blastRadius in {Nothing, Host}))
  {
    if IsMcp(plan.steps[index].action.capability) {
      ExternalToolsAreHighRisk(plan.steps[index].action.capability);
    }
    SingleReaches(plan.confidence);
  }

  /** The matrix exactly: nothing below L3, low risk from L3, controlled from L4, high risk and destructive never. */
  lemma MatrixIff(mode: AutonomyMode, risk: RiskClass)
    ensures MayExecute(mode, risk) <==>
            || (risk in {Read, LowRisk} && mode in {L3Assisted, L4Autonomous, L5Adaptive})
            || (risk == Controlled && mode in {L4Autonomous, L5Adaptive})
  {
  }

  /** Exactly when escalation lets a step be fixed automatically: declared risk and scope stand in for the governed ones. */
  lemma AutoFixIff(plan: Plan, registry: Registry, index: nat, autonomy: AutonomyMode, risk: RiskClass)
    requires index < |plan.steps|
    ensures var step := plan.steps[index];
            var capability := step.action.capability;
            var declared := capability in registry && registry[capability].blastRadius.Some?;
            EscalationPermits(plan, registry, index, autonomy, risk) <==>
            && autonomy in {L3Assisted, L4Autonomous, L5Adaptive}
            && (risk == Read || (step.rollback.Some? && step.rollback.value.capability != capability))
            && (if declared then registry[capability].blastRadius.value else plan.blastRadius) in {BlastRadius.Nothing, BlastRadius.Host}
            && (if declared then registry[capability].risk else risk) in {Read, LowRisk, Controlled}
            && plan.confidence >= CONFIDENT
  {
    SingleReaches(plan.confidence);
  }

  const SERVICE_AND_FREEZER := {"host.service.restart", "host.service.stop", "host.service.start",
                                "host.cgroup.freeze", "host.cgroup.thaw"}

  /** The static risk of every capability, by name. */
  lemma RiskByName(capability: string)
    ensures RiskFor(capability) ==
            if capability in SERVICE_AND_FREEZER then LowRisk
            else if capability in {"host.process.signal", "k8s.pod.delete", "k8s.node.drain", "k8s.workload.reschedule"}
                    || (|capability| >= 4 && capability[..4] == "mcp.") then HighRisk
            else Controlled
  {
    assert IsMcp(capability) <==> |capability| >= 4 && capability[..4] == "mcp.";
  }

  /** What L3 may touch on its own, by name: services and the freezer, and external tools registered as harmless enough. */
  lemma AssistedReach(capability: string, registry: Registry)
    ensures MayExecute(L3Assisted, GovernedRisk(capability, registry)) <==>
            || capability in SERVICE_AND_FREEZER
            || (IsMcp(capability) && capability in registry && registry[capability].risk in {Read, LowRisk})
  {
    RiskByName(capability);
    if IsMcp(capability) {
      ExternalToolsAreHighRisk(capability);
    }
  }

  /** Opposite actions aim at opposite states, restarts at the running one, and what has no state to read at none. */
  lemma DesiredByName(capability: string)
    ensures DesiredState("host.service.start") == DesiredState("host.service.restart") == Some(true)
    ensures DesiredState("host.service.stop") == Some(false)
    ensures DesiredState("host.cgroup.freeze") == Some(true) && DesiredState("host.cgroup.thaw") == Some(false)
    ensures DesiredState("k8s.node.uncordon") == Some(true) && DesiredState("k8s.node.cordon") == Some(false)
    ensures DesiredState("k8s.pod.restart") == Some(true) && DesiredState("k8s.pod.delete") == Some(false)
    ensures DesiredState("container.restart") == DesiredState("k8s.deployment.restart") == DesiredState("k8s.deployment.rollback") == Some(true)
    ensures IsMcp(capability) || capability in {"host.process.signal", "host.memory.reclaim", "host.journal.vacuum"} ==>
              DesiredState(capability).None?
  {
    if IsMcp(capability) {
      assert capability[0] == 'm';
    }
  }
}
