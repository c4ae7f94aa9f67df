/**
 * The remediation run loop: every step of a plan crosses governor, policy, budget, autonomy
 * matrix and escalation before it may take effect; a failed step stops the plan and undoes the
 * executed steps in reverse. Functions give each run's meaning; the methods are the loops.
 */
module Control {
  import opened Domain
  import opened Policy

  const GRANT := "plan.approval"
  const ROLLBACK := "plan.rollback"

  datatype Decision = Decision(outcome: PolicyOutcome, policyId: string)

  /** What one call into a controller or executor did to the host. */
  datatype Performed<H, E> = Done(host: H, env: E, marked: bool) | Failed(host: H, env: E)

  /**
   * The injected ports. `H` is the host the actions change; `E` is everything else the ports
   * remember (governor history, policy state, budget windows, the clock, other plans running).
   * `marked` is true when the executor's own evidence carries the key `already_desired`.
   */
  datatype Ports<!H, !E> = Ports(
    governedPrefixes: seq<string>,
    govern: (E, Action, nat) -> (bool, E),
    decide: (E, Action, RiskClass, BlastRadius, bool) -> (Decision, E),
    clock: E -> int,
    reserve: (E, RiskClass, BlastRadius, int) -> (bool, E),
    refund: (E, RiskClass, BlastRadius, int) -> E,
    observe: (E, H, Action) -> Option<bool>,
    perform: (E, H, Action, string) -> Performed<H, E>)

  datatype Verdict = VerdictAllow | VerdictDeny | VerdictRequiresApproval

  datatype RowOutcome = RowOk | RowDenied | RowAwaiting | RowFailed | RowRolledBack

  /** Everything observable a run does, in order. `Row` is one ledger record. */
  datatype Event =
    | Governor(index: nat, allowed: bool)
    | Decided(index: nat, outcome: PolicyOutcome, policyId: string)
    | Reserve(index: nat, risk: RiskClass, scope: BlastRadius, at: int, granted: bool)
    | Refund(index: nat, risk: RiskClass, scope: BlastRadius, at: int)
    | Effect(index: nat, policyId: string, ok: bool, marked: bool)
    | Undo(index: nat, ok: bool)
    | Row(index: nat, undo: bool, verdict: Verdict, policyId: string, result: RowOutcome, noop: bool)

  datatype PlanStatus = Executing | Failed | RollingBack | RolledBack | NeedsManual | Denied | Completed

  datatype Execution = Execution(index: nat, completed: bool, alreadyDesired: bool)

  datatype Run<H, E> = Run(
    host: H,
    env: E,
    executed: seq<nat>,
    executions: seq<Execution>,
    denied: seq<nat>,
    status: PlanStatus,
    trace: seq<Event>)
  {
    function Log(events: seq<Event>): Run<H, E> {
      this.(trace := trace + events)
    }
  }

  datatype Context<!H, !E> = Context(
    plan: Plan,
    registry: Registry,
    ports: Ports<H, E>,
    autonomy: AutonomyMode,
    resumed: bool)
  {
    function Capability(index: nat): string
      requires index < |plan.steps|
    {
      plan.steps[index].action.capability
    }

    function Risk(index: nat): RiskClass
      requires index < |plan.steps|
    {
      GovernedRisk(Capability(index), registry)
    }

    predicate Governed(index: nat)
      requires index < |plan.steps|
    {
      exists k :: 0 <= k < |ports.governedPrefixes| && ports.governedPrefixes[k] <= Capability(index)
    }

    predicate Matrix(index: nat)
      requires index < |plan.steps|
    {
      MayExecute(autonomy, Risk(index))
    }

    /** The escalation gate stops the step: it binds at L4/L5 only. */
    predicate Escalates(index: nat)
      requires index < |plan.steps|
    {
      EscalationBounded(autonomy) && !EscalationPermits(plan, registry, index, autonomy, Risk(index))
    }

    predicate Valid(executed: seq<nat>) {
      forall k :: 0 <= k < |executed| ==> executed[k] < |plan.steps|
    }
  }

  // ---------------------------------------------------------------- gates

  datatype Ruling = Refuse(policyId: string) | Pause(policyId: string) | Proceed(policyId: string, charge: Option<int>)

  datatype Gated<E> = Gated(ruling: Ruling, env: E, events: seq<Event>)

  function Surrender<H, E>(c: Context<H, E>, i: nat, ruling: Ruling, env: E, events: seq<Event>, charge: Option<int>): Gated<E>
    requires i < |c.plan.steps|
  {
    match charge
    case None => Gated(ruling, env, events)
    case Some(at) =>
      Gated(ruling, c.ports.refund(env, c.Risk(i), c.plan.blastRadius, at),
            events + [Refund(i, c.Risk(i), c.plan.blastRadius, at)])
  }

  function AutonomyGate<H, E>(c: Context<H, E>, i: nat, policyId: string, env: E, events: seq<Event>, charge: Option<int>): Gated<E>
    requires i < |c.plan.steps|
  {
    if !c.Matrix(i) then Surrender(c, i, Refuse("autonomy.matrix"), env, events, charge)
    else if c.Escalates(i) then Surrender(c, i, Pause(policyId), env, events, charge)
    else Gated(Proceed(policyId, charge), env, events)
  }

  function BudgetGate<H, E>(c: Context<H, E>, i: nat, policyId: string, env: E, events: seq<Event>): Gated<E>
    requires i < |c.plan.steps|
  {
    if c.resumed || policyId == GRANT then AutonomyGate(c, i, policyId, env, events, None)
    else
      var at := c.ports.clock(env);
      var (granted, env1) := c.ports.reserve(env, c.Risk(i), c.plan.blastRadius, at);
      var events1 := events + [Reserve(i, c.Risk(i), c.plan.blastRadius, at, granted)];
      if granted then AutonomyGate(c, i, policyId, env1, events1, Some(at))
      else Gated(Pause("budget.exhausted"), env1, events1)
  }

  function PolicyGate<H, E>(c: Context<H, E>, i: nat, env: E, events: seq<Event>): Gated<E>
    requires i < |c.plan.steps|
  {
    var capability := c.Capability(i);
    var needsApproval := capability in c.registry ==> c.registry[capability].requiresApproval;
    var (d, env1) := c.ports.decide(env, c.plan.steps[i].action, c.Risk(i), c.plan.blastRadius, needsApproval);
    var events1 := events + [Decided(i, d.outcome, d.policyId)];
    match d.outcome
    case Deny => Gated(Refuse(d.policyId), env1, events1)
    case RequireApproval =>
      if c.resumed then Gated(Proceed(GRANT, None), env1, events1) else Gated(Pause(d.policyId), env1, events1)
    case Allow => BudgetGate(c, i, d.policyId, env1, events1)
  }

  /** Governor, then policy, then budget, then autonomy matrix, then escalation. */
  function Gate<H, E>(c: Context<H, E>, i: nat, env: E): Gated<E>
    requires i < |c.plan.steps|
  {
    if c.Governed(i) then
      var (allowed, env1) := c.ports.govern(env, c.plan.steps[i].action, i);
      if allowed then PolicyGate(c, i, env1, [Governor(i, true)])
      else Gated(Refuse("governor"), env1, [Governor(i, false)])
    else PolicyGate(c, i, env, [])
  }

  // ---------------------------------------------------------------- effects

  /** Dispatch by family; an unsupported or unaddressed action fails without reaching a port. */
  function ExecuteAction<H, E>(ports: Ports<H, E>, env: E, host: H, action: Action, policyId: string): Performed<H, E> {
    var capability := action.capability;
    if IsServiceAction(capability) then
      if "unit" in action.arguments then ports.perform(env, host, action, policyId) else Performed.Failed(host, env)
    else if IsKubernetesAction(capability) || IsRemediationAction(capability) then
      ports.perform(env, host, action, policyId)
    else Performed.Failed(host, env)
  }

  /** None is a failed live-state read. */
  function DesiredStateHolds<H, E>(ports: Ports<H, E>, env: E, host: H, action: Action): Option<bool> {
    match DesiredState(action.capability)
    case None => Some(false)
    case Some(desired) =>
      match ports.observe(env, host, action)
      case None => None
      case Some(observed) => Some(observed == desired)
  }

  /** One attempted rollback and whether it succeeded; a rollback is never gated again. */
  function TryUndo<H, E>(c: Context<H, E>, s: Run<H, E>, index: nat): (r: (Run<H, E>, bool))
    requires index < |c.plan.steps| && c.plan.steps[index].rollback.Some?
    ensures r.0.executed == s.executed && r.0.executions == s.executions && r.0.denied == s.denied
    ensures s.trace <= r.0.trace
  {
    var did := ExecuteAction(c.ports, s.env, s.host, c.plan.steps[index].rollback.value, ROLLBACK);
    var result := if did.Done? then RowRolledBack else RowFailed;
    (s.(host := did.host, env := did.env)
     .Log([Undo(index, did.Done?), Row(index, true, VerdictAllow, ROLLBACK, result, false)]), did.Done?)
  }

  /** Undoes the first `n` executed steps, newest first, stopping at the first that cannot be undone. */
  function UndoFrom<H, E>(c: Context<H, E>, s: Run<H, E>, n: nat): (r: Run<H, E>)
    requires n <= |s.executed| && c.Valid(s.executed)
    ensures r.executed == s.executed && r.executions == s.executions && r.denied == s.denied
    ensures r.status.RolledBack? || r.status.NeedsManual?
    ensures s.trace <= r.trace
    decreases n
  {
    if n == 0 then s.(status := RolledBack)
    else if c.plan.steps[s.executed[n - 1]].rollback.None? then s.(status := NeedsManual)
    else
      var (s1, ok) := TryUndo(c, s, s.executed[n - 1]);
      if ok then UndoFrom(c, s1, n - 1) else s1.(status := NeedsManual)
  }

  function Rollback<H, E>(c: Context<H, E>, s: Run<H, E>): Run<H, E>
    requires c.Valid(s.executed)
  {
    if s.executed == [] then s else UndoFrom(c, s.(status := RollingBack), |s.executed|)
  }

  /** The step failed: it is recorded, and everything executed before it is undone. */
  function FailStop<H, E>(c: Context<H, E>, i: nat, policyId: string, s: Run<H, E>): (r: Run<H, E>)
    requires c.Valid(s.executed)
    ensures r.executed == s.executed && r.status in {PlanStatus.Failed, RolledBack, NeedsManual}
    ensures r.executions == s.executions + [Execution(i, false, false)]
    ensures s.trace <= r.trace
  {
    Rollback(c, s.(executions := s.executions + [Execution(i, false, false)], status := PlanStatus.Failed)
                .Log([Row(i, false, VerdictAllow, policyId, RowFailed, false)]))
  }

  /** The run after an approved step, and whether it is terminal. */
  function ExecuteAllowed<H, E>(c: Context<H, E>, i: nat, policyId: string, s: Run<H, E>): (r: (Run<H, E>, bool))
    requires i < |c.plan.steps| && c.Valid(s.executed)
    ensures r.0.executed == s.executed || (!r.1 && r.0.executed == s.executed + [i])
    ensures |r.0.executions| == |s.executions| + 1 && r.0.executions[..|s.executions|] == s.executions
    ensures r.0.executions[|s.executions|].completed == !r.1
    ensures s.trace <= r.0.trace
  {
    var action := c.plan.steps[i].action;
    match DesiredStateHolds(c.ports, s.env, s.host, action)
    case None => (FailStop(c, i, policyId, s), true)
    case Some(true) =>
      (s.(executions := s.executions + [Execution(i, true, true)])
       .Log([Row(i, false, VerdictAllow, policyId, RowOk, true)]), false)
    case Some(false) =>
      match ExecuteAction(c.ports, s.env, s.host, action, policyId)
      case Done(host, env, marked) =>
        (s.(host := host, env := env,
         executions := s.executions + [Execution(i, true, marked)],
         executed := s.executed + [i])
         .Log([Effect(i, policyId, true, marked), Row(i, false, VerdictAllow, policyId, RowOk, false)]), false)
      case Failed(host, env) =>
        (FailStop(c, i, policyId, s.(host := host, env := env).Log([Effect(i, policyId, false, false)])), true)
  }

  /** A reserved step whose last recorded execution reads as an already-desired no-op is refunded. */
  function Settle<H, E>(c: Context<H, E>, i: nat, charge: Option<int>, s: Run<H, E>): Run<H, E>
    requires i < |c.plan.steps|
  {
    if charge.Some? && s.executions != []
       && s.executions[|s.executions| - 1].completed && s.executions[|s.executions| - 1].alreadyDesired
    then
      s.(env := c.ports.refund(s.env, c.Risk(i), c.plan.blastRadius, charge.value))
      .Log([Refund(i, c.Risk(i), c.plan.blastRadius, charge.value)])
    else s
  }

  // ---------------------------------------------------------------- whole runs

  datatype Progress<H, E> = Continue(run: Run<H, E>) | Finished(run: Run<H, E>) | Paused(run: Run<H, E>)

  /** What the loop does with step `i` once the gates have ruled. */
  function Act<H, E>(c: Context<H, E>, i: nat, s: Run<H, E>, g: Gated<E>): (p: Progress<H, E>)
    requires i < |c.plan.steps| && c.Valid(s.executed)
    ensures p.run.executed == s.executed || (p.Continue? && p.run.executed == s.executed + [i])
    ensures c.Valid(p.run.executed)
  {
    var s1 := s.(env := g.env).Log(g.events);
    match g.ruling
    case Refuse(policyId) =>
      Continue(s1.(denied := s.denied + [i]).Log([Row(i, false, VerdictDeny, policyId, RowDenied, false)]))
    case Pause(policyId) =>
      Paused(s1.Log([Row(i, false, VerdictRequiresApproval, policyId, RowAwaiting, false)]))
    case Proceed(policyId, charge) =>
      var (s2, terminal) := ExecuteAllowed(c, i, policyId, s1);
      var s3 := Settle(c, i, charge, s2);
      if terminal then Finished(s3) else Continue(s3)
  }

  /** A step that already ran before the pause is not run again. */
  function VisitStep<H, E>(c: Context<H, E>, i: nat, s: Run<H, E>): (p: Progress<H, E>)
    requires i < |c.plan.steps| && c.Valid(s.executed)
    ensures p.run.executed == s.executed || (p.Continue? && p.run.executed == s.executed + [i])
    ensures c.Valid(p.run.executed)
  {
    if c.resumed && i in s.executed then Continue(s) else Act(c, i, s, Gate(c, i, s.env))
  }

  /** The steps from `i` on; a loop that runs off the end is Completed, or Denied if nothing executed. */
  function RunFrom<H, E>(c: Context<H, E>, i: nat, s: Run<H, E>): (p: Progress<H, E>)
    requires i <= |c.plan.steps| && c.Valid(s.executed)
    ensures !p.Continue? && c.Valid(p.run.executed)
    decreases |c.plan.steps| - i
  {
    if i == |c.plan.steps| then
      Finished(s.(status := if s.executions == [] then Denied else Completed))
    else
      match VisitStep(c, i, s)
      case Continue(s1) => RunFrom(c, i + 1, s1)
      case Finished(s1) => Finished(s1)
      case Paused(s1) => Paused(s1)
  }

  /** A run's first state; `executed` is what an earlier, paused run carried over. */
  function Start<H, E>(host: H, env: E, executed: seq<nat>): Run<H, E> {
    Run(host, env, executed, [], [], Executing, [])
  }

  function RunAll<H, E>(c: Context<H, E>, host: H, env: E, executed: seq<nat>): (p: Progress<H, E>)
    requires c.Valid(executed)
    ensures !p.Continue? && c.Valid(p.run.executed)
  {
    RunFrom(c, 0, Start(host, env, executed))
  }

  // ---------------------------------------------------------------- the loops

  method RollbackExecuted<H, E>(c: Context<H, E>, s: Run<H, E>) returns (r: Run<H, E>)
    requires c.Valid(s.executed)
    ensures r == Rollback(c, s)
  {
    r := s;
    if s.executed == [] {
      return;
    }
    r := r.(status := RollingBack);
    var n: nat := |s.executed|;
    while n > 0
      invariant n <= |s.executed| && r.executed == s.executed
      invariant UndoFrom(c, r, n) == Rollback(c, s)
    {
      n := n - 1;
      var index := s.executed[n];
      if c.plan.steps[index].rollback.None? {
        r := r.(status := NeedsManual);
        return;
      }
      var attempt := TryUndo(c, r, index);
      r := attempt.0;
      if !attempt.1 {
        r := r.(status := NeedsManual);
        return;
      }
    }
    r := r.(status := RolledBack);
  }

  method ExecuteAllowedStep<H, E>(c: Context<H, E>, i: nat, policyId: string, s: Run<H, E>)
    returns (r: Run<H, E>, terminal: bool)
    requires i < |c.plan.steps| && c.Valid(s.executed)
    ensures (r, terminal) == ExecuteAllowed(c, i, policyId, s)
  {
    r := s;
    var action := c.plan.steps[i].action;
    var holds := DesiredStateHolds(c.ports, s.env, s.host, action);
    if holds == Some(true) {
      r := r.(executions := r.executions + [Execution(i, true, true)])
      .Log([Row(i, false, VerdictAllow, policyId, RowOk, true)]);
      return r, false;
    }
    if holds == Some(false) {
      var performed := ExecuteAction(c.ports, s.env, s.host, action, policyId);
      r := r.(host := performed.host, env := performed.env);
      if performed.Done? {
        r := r.(executions := r.executions + [Execution(i, true, performed.marked)], executed := r.executed + [i])
        .Log([Effect(i, policyId, true, performed.marked), Row(i, false, VerdictAllow, policyId, RowOk, false)]);
        return r, false;
      }
      r := r.Log([Effect(i, policyId, false, false)]);
    }
    r := r.(executions := r.executions + [Execution(i, false, false)], status := PlanStatus.Failed)
    .Log([Row(i, false, VerdictAllow, policyId, RowFailed, false)]);
    r := RollbackExecuted(c, r);
    return r, true;
  }

  method RunPlan<H, E>(c: Context<H, E>, host: H, env: E, executed: seq<nat>) returns (p: Progress<H, E>)
    requires c.Valid(executed)
    ensures p == RunAll(c, host, env, executed)
  {
    hide Gate, ExecuteAllowed, Settle;
    var run := Start(host, env, executed);
    var i := 0;
    while i < |c.plan.steps|
      invariant i <= |c.plan.steps| && c.Valid(run.executed)
      invariant RunFrom(c, i, run) == RunAll(c, host, env, executed)
    {
      if c.resumed && i in run.executed {
        i := i + 1;
        continue;
      }
      var gated := Gate(c, i, run.env);
      run := run.(env := gated.env).Log(gated.events);
      match gated.ruling {
        case Refuse(policyId) =>
          run := run.(denied := run.denied + [i]).Log([Row(i, false, VerdictDeny, policyId, RowDenied, false)]);
        case Pause(policyId) =>
          run := run.Log([Row(i, false, VerdictRequiresApproval, policyId, RowAwaiting, false)]);
          return Paused(run);
        case Proceed(policyId, charge) =>
          var terminal;
          run, terminal := ExecuteAllowedStep(c, i, policyId, run);
          run := Settle(c, i, charge, run);
          if terminal {
            return Finished(run);
          }
      }
      i := i + 1;
    }
    run := run.(status := if run.executions == [] then Denied else Completed);
    return Finished(run);
  }
}
