/** When the run loop can take a step's own evidence for a no-op: a condition on the ports, and one on the plan. */
module Misreading {
  import opened Domain
  import opened Policy
  import opened Control
  import opened RunTrace
  import opened Authority
  import opened Conservation

  // ---------------------------------------------------------------- effects come from the ports

  /** A step that took effect did so through its port, which answered with that marker. */
  ghost predicate Grounded<H(!new), E(!new)>(c: Context<H, E>, event: Event) {
    event.Effect? && event.ok ==>
      && event.index < |c.plan.steps|
      && Answers(c.ports, c.plan.steps[event.index].action, event.policyId, event.marked)
  }

  ghost predicate Answers<H(!new), E(!new)>(ports: Ports<H, E>, action: Action, policyId: string, marked: bool) {
    exists env: E, host: H :: AnswersAt(ports, env, host, action, policyId, marked)
  }

  predicate AnswersAt<H, E>(ports: Ports<H, E>, env: E, host: H, action: Action, policyId: string, marked: bool) {
    var did := ExecuteAction(ports, env, host, action, policyId);
    did.Done? && did.marked == marked
  }

  ghost predicate AllGrounded<H(!new), E(!new)>(c: Context<H, E>, t: seq<Event>) {
    forall k :: 0 <= k < |t| ==> Grounded(c, t[k])
  }

  predicate NoEffects(t: seq<Event>) {
    forall k :: 0 <= k < |t| ==> !t[k].Effect?
  }

  lemma QuietGrounded<H(!new), E(!new)>(c: Context<H, E>, a: seq<Event>, b: seq<Event>)
    requires AllGrounded(c, a) && NoEffects(b)
    ensures AllGrounded(c, a + b)
  {
    hide Answers;
  }

  lemma {:induction false} UndoGrounded<H(!new), E(!new)>(c: Context<H, E>, s: Run<H, E>, n: nat)
    requires n <= |s.executed| && c.Valid(s.executed) && AllGrounded(c, s.trace)
    ensures AllGrounded(c, UndoFrom(c, s, n).trace)
    decreases n
  {
    hide AllGrounded;
    if n > 0 && c.plan.steps[s.executed[n - 1]].rollback.Some? {
      var (s1, ok) := TryUndo(c, s, s.executed[n - 1]);
      QuietGrounded(c, s.trace, s1.trace[|s.trace|..]);
      assert s1.trace == s.trace + s1.trace[|s.trace|..];
      hide TryUndo;
      if ok {
        UndoGrounded(c, s1, n - 1);
      }
    }
  }

  lemma FailStopGrounded<H(!new), E(!new)>(c: Context<H, E>, i: nat, policyId: string, s: Run<H, E>)
    requires c.Valid(s.executed) && AllGrounded(c, s.trace)
    ensures AllGrounded(c, FailStop(c, i, policyId, s).trace)
  {
    hide UndoFrom, AllGrounded;
    var row := Row(i, false, VerdictAllow, policyId, RowFailed, false);
    QuietGrounded(c, s.trace, [row]);
    var s1 := s.(executions := s.executions + [Execution(i, false, false)], status := PlanStatus.Failed).Log([row]);
    UndoGrounded(c, s1.(status := RollingBack), |s1.executed|);
  }

  lemma ExecuteGrounded<H(!new), E(!new)>(c: Context<H, E>, i: nat, policyId: string, s: Run<H, E>)
    requires i < |c.plan.steps| && c.Valid(s.executed) && AllGrounded(c, s.trace)
    ensures AllGrounded(c, ExecuteAllowed(c, i, policyId, s).0.trace)
  {
    hide FailStop, ExecuteAction;
    var action := c.plan.steps[i].action;
    var holds := DesiredStateHolds(c.ports, s.env, s.host, action);
    if holds == None {
      FailStopGrounded(c, i, policyId, s);
    } else if holds == Some(false) {
      var did := ExecuteAction(c.ports, s.env, s.host, action, policyId);
      if did.Done? {
        assert AnswersAt(c.ports, s.env, s.host, action, policyId, did.marked);
      } else {
        FailStopGrounded(c, i, policyId, s.(host := did.host, env := did.env).Log([Effect(i, policyId, false, false)]));
      }
    }
  }

  lemma ActGrounded<H(!new), E(!new)>(c: Context<H, E>, i: nat, s: Run<H, E>, g: Gated<E>)
    requires i < |c.plan.steps| && c.Valid(s.executed) && AllGrounded(c, s.trace) && Quiet(g.events)
    ensures AllGrounded(c, Act(c, i, s, g).run.trace)
  {
    hide ExecuteAllowed, Answers;
    QuietGrounded(c, s.trace, g.events);
    if g.ruling.Proceed? {
      ExecuteGrounded(c, i, g.ruling.policyId, s.(env := g.env).Log(g.events));
    }
  }

  lemma {:induction false} RunGrounded<H(!new), E(!new)>(c: Context<H, E>, i: nat, s: Run<H, E>)
    requires i <= |c.plan.steps| && c.Valid(s.executed) && AllGrounded(c, s.trace)
    ensures AllGrounded(c, RunFrom(c, i, s).run.trace)
    decreases |c.plan.steps| - i
  {
    hide Gate, Act, AllGrounded;
    if i < |c.plan.steps| {
      GateIsQuiet(c, i, s.env);
      ActGrounded(c, i, s, Gate(c, i, s.env));
      var p := VisitStep(c, i, s);
      if p.Continue? {
        RunGrounded(c, i + 1, p.run);
      }
    }
  }

  // ---------------------------------------------------------------- ports that never mark

  /** No executor's evidence carries the key the loop reads as a no-op. */
  ghost predicate NeverMarks<H(!new), E(!new)>(ports: Ports<H, E>) {
    forall env: E, host: H, action: Action, policyId: string ::
      ports.perform(env, host, action, policyId).Done? ==> !ports.perform(env, host, action, policyId).marked
  }

  lemma UnmarkedAnswers<H(!new), E(!new)>(ports: Ports<H, E>, action: Action, policyId: string)
    requires NeverMarks(ports)
    ensures !Answers(ports, action, policyId, true)
  {
  }

  /** With executors that never write the marker, every first run's books balance, on every set of steps. */
  lemma ExactWithoutMarks<H(!new), E(!new)>(c: Context<H, E>, host: H, env: E)
    requires !c.resumed && NeverMarks(c.ports)
    ensures Exact(RunAll(c, host, env, []).run.trace)
  {
    hide RunFrom, Answers, NeverMarks, Exact;
    var t := RunAll(c, host, env, []).run.trace;
    RunGrounded(c, 0, Start(host, env, []));
    forall k | 0 <= k < |t| ensures Weight(Misread, t[k]) == 0 {
      assert Grounded(c, t[k]);
      if t[k].Effect? && t[k].ok {
        UnmarkedAnswers(c.ports, c.plan.steps[t[k].index].action, t[k].policyId);
      }
    }
    ExactlyUnlessMisread(c, host, env);
  }

  // ---------------------------------------------------------------- exactly which plans can be misread

  /** The action reaches a port at all. */
  predicate Performable(action: Action) {
    if IsServiceAction(action.capability) then "unit" in action.arguments
    else IsKubernetesAction(action.capability) || IsRemediationAction(action.capability)
  }

  /** The step can be executed on its own authority: matrix and escalation let it, and it reaches a port. */
  predicate Chargeable(plan: Plan, registry: Registry, autonomy: AutonomyMode, i: nat)
    requires i < |plan.steps|
  {
    var action := plan.steps[i].action;
    var risk := GovernedRisk(action.capability, registry);
    && MayExecute(autonomy, risk)
    && (EscalationBounded(autonomy) ==> EscalationPermits(plan, registry, i, autonomy, risk))
    && Performable(action)
  }

  ghost predicate SomeChargeable(plan: Plan, registry: Registry, autonomy: AutonomyMode) {
    exists i: nat :: i < |plan.steps| && Chargeable(plan, registry, autonomy, i)
  }

  /** Some ports make a first run's books fail to balance. */
  ghost predicate CanUnbalance<H(!new)>(plan: Plan, registry: Registry, autonomy: AutonomyMode, host: H) {
    exists ports: Ports<H, int>, env: int ::
      !Exact(RunAll(Context(plan, registry, ports, autonomy, false), host, env, []).run.trace)
  }

  lemma UnbalancedIsChargeable<H(!new), E(!new)>(c: Context<H, E>, host: H, env: E)
    requires !c.resumed && !Exact(RunAll(c, host, env, []).run.trace)
    ensures SomeChargeable(c.plan, c.registry, c.autonomy)
  {
    hide RunAll, Exact, Chargeable;
    var t := RunAll(c, host, env, []).run.trace;
    ExactlyUnlessMisread(c, host, env);
    var k :| 0 <= k < |t| && Weight(Misread, t[k]) != 0;
    NoBypass(c, host, env, []);
    assert Justified(c, t[..k], t[k]);
    AllEffectsGrounded(c, host, env);
    assert Grounded(c, t[k]);
    MisreadIsChargeable(c, t[..k], t[k]);
  }

  lemma AllEffectsGrounded<H(!new), E(!new)>(c: Context<H, E>, host: H, env: E)
    ensures AllGrounded(c, RunAll(c, host, env, []).run.trace)
  {
    RunGrounded(c, 0, Start(host, env, []));
  }

  lemma MisreadIsChargeable<H(!new), E(!new)>(c: Context<H, E>, t: seq<Event>, event: Event)
    requires !c.resumed && event.Effect? && event.ok && Justified(c, t, event) && Grounded(c, event)
    ensures event.index < |c.plan.steps| && Chargeable(c.plan, c.registry, c.autonomy, event.index)
  {
    var env, host :| AnswersAt(c.ports, env, host, c.plan.steps[event.index].action, event.policyId, event.marked);
  }

  // ---------------------------------------------------------------- ports that mark one step

  const MARKED_AT := "marking"

  /** Ports that allow the `target`-th consulted step only, find nothing as desired, and mark what they do. */
  function Marking<H>(target: int): Ports<H, int> {
    Ports([],
          (env: int, action: Action, i: nat) => (true, env),
          (env: int, action: Action, risk: RiskClass, scope: BlastRadius, approval: bool) =>
            (Decision(if env == target then Allow else Deny, MARKED_AT), env + 1),
          (env: int) => 0,
          (env: int, risk: RiskClass, scope: BlastRadius, at: int) => (true, env),
          (env: int, risk: RiskClass, scope: BlastRadius, at: int) => env,
          (env: int, host: H, action: Action) => Some(DesiredState(action.capability) == Some(false)),
          (env: int, host: H, action: Action, policyId: string) => Performed.Done(host, env, true))
  }

  lemma MarkingGate<H>(c: Context<H, int>, target: nat, i: nat, env: int)
    requires !c.resumed && i < |c.plan.steps| && c.ports == Marking(target)
    ensures env != target ==> Gate(c, i, env) == Gated(Refuse(MARKED_AT), env + 1, [Decided(i, Deny, MARKED_AT)])
    ensures env == target && Chargeable(c.plan, c.registry, c.autonomy, i) ==>
              Gate(c, i, env) ==
              Gated(Proceed(MARKED_AT, Some(0)), env + 1,
                    [Decided(i, Allow, MARKED_AT), Reserve(i, c.Risk(i), c.plan.blastRadius, 0, true)])
  {
    hide EscalationPermits, MayExecute;
    var capability := c.Capability(i);
    var d := c.ports.decide(env, c.plan.steps[i].action, c.Risk(i), c.plan.blastRadius,
                            capability in c.registry ==> c.registry[capability].requiresApproval);
    assert d == (Decision(if env == target then Allow else Deny, MARKED_AT), env + 1);
    assert !c.Governed(i);
    assert MARKED_AT != GRANT by { assert MARKED_AT[0] != GRANT[0]; }
  }

  /** The marked step is executed, recorded as an effect, and its unit given back. */
  lemma MarkingExecutes<H>(c: Context<H, int>, target: nat, i: nat, s: Run<H, int>)
    requires i < |c.plan.steps| && c.ports == Marking(target) && c.Valid(s.executed)
    requires Performable(c.plan.steps[i].action)
    ensures var (r, terminal) := ExecuteAllowed(c, i, MARKED_AT, s);
            && !terminal
            && r.executions == s.executions + [Execution(i, true, true)]
            && r.trace == s.trace + [Effect(i, MARKED_AT, true, true), Row(i, false, VerdictAllow, MARKED_AT, RowOk, false)]
  {
    hide IsServiceAction, IsKubernetesAction, IsRemediationAction, DesiredState;
    var action := c.plan.steps[i].action;
    assert c.ports.observe(s.env, s.host, action) == Some(DesiredState(action.capability) == Some(false));
    assert DesiredStateHolds(c.ports, s.env, s.host, action) == Some(false);
    assert ExecuteAction(c.ports, s.env, s.host, action, MARKED_AT) == Performed.Done(s.host, s.env, true);
  }

  lemma MarkingVisit<H>(c: Context<H, int>, target: nat, i: nat, s: Run<H, int>)
    requires !c.resumed && i <= target < |c.plan.steps| && c.ports == Marking(target) && c.Valid(s.executed)
    requires s.env == i && Chargeable(c.plan, c.registry, c.autonomy, target)
    ensures var p := VisitStep(c, i, s);
            && p.Continue?
            && (i < target ==> p.run.env == i + 1)
            && (i == target ==>
                  p.run.trace == s.trace
                  + [Decided(i, Allow, MARKED_AT), Reserve(i, c.Risk(i), c.plan.blastRadius, 0, true)]
                  + [Effect(i, MARKED_AT, true, true), Row(i, false, VerdictAllow, MARKED_AT, RowOk, false)]
                  + [Refund(i, c.Risk(i), c.plan.blastRadius, 0)])
  {
    hide Gate, ExecuteAllowed;
    MarkingGate(c, target, i, s.env);
    if i == target {
      var g := Gate(c, i, s.env);
      MarkingExecutes(c, target, i, s.(env := g.env).Log(g.events));
    }
  }

  lemma VisitGrows<H, E>(c: Context<H, E>, i: nat, s: Run<H, E>)
    requires i < |c.plan.steps| && c.Valid(s.executed)
    ensures s.trace <= VisitStep(c, i, s).run.trace
  {
    hide Gate, ExecuteAllowed;
  }

  lemma {:induction false} RunGrows<H, E>(c: Context<H, E>, i: nat, s: Run<H, E>, event: Event)
    requires i <= |c.plan.steps| && c.Valid(s.executed) && event in s.trace
    ensures event in RunFrom(c, i, s).run.trace
    decreases |c.plan.steps| - i
  {
    hide VisitStep;
    if i < |c.plan.steps| {
      VisitGrows(c, i, s);
      var t := VisitStep(c, i, s).run.trace;
      assert t == s.trace + t[|s.trace|..];
      if VisitStep(c, i, s).Continue? {
        RunGrows(c, i + 1, VisitStep(c, i, s).run, event);
      }
    }
  }

  lemma {:induction false} MarkingRun<H>(c: Context<H, int>, target: nat, i: nat, s: Run<H, int>)
    requires !c.resumed && i <= target < |c.plan.steps| && c.ports == Marking(target) && c.Valid(s.executed)
    requires s.env == i && Chargeable(c.plan, c.registry, c.autonomy, target)
    ensures Effect(target, MARKED_AT, true, true) in RunFrom(c, i, s).run.trace
    decreases target - i
  {
    hide VisitStep, Chargeable;
    MarkingVisit(c, target, i, s);
    var p := VisitStep(c, i, s);
    if i < target {
      MarkingRun(c, target, i + 1, p.run);
    } else {
      assert p.run.trace[|s.trace| + 2] == Effect(target, MARKED_AT, true, true);
      RunGrows(c, i + 1, p.run, Effect(target, MARKED_AT, true, true));
    }
  }

  /**
   * Which plans' books can fail to balance, for some answers of the ports: exactly those with a step
   * that the matrix and escalation let execute on its own authority and that reaches a port.
   */
  lemma CanUnbalanceIff<H(!new)>(plan: Plan, registry: Registry, autonomy: AutonomyMode, host: H)
    ensures CanUnbalance(plan, registry, autonomy, host) <==> SomeChargeable(plan, registry, autonomy)
  {
    hide RunAll, Exact, Chargeable;
    if ports: Ports<H, int>, env: int :|
      !Exact(RunAll(Context(plan, registry, ports, autonomy, false), host, env, []).run.trace) {
      UnbalancedIsChargeable(Context(plan, registry, ports, autonomy, false), host, env);
    }
    if i: nat :| i < |plan.steps| && Chargeable(plan, registry, autonomy, i) {
      var c := Context(plan, registry, Marking(i), autonomy, false);
      MarkedIsUnbalanced(c, i, host);
      assert !Exact(RunAll(Context(plan, registry, c.ports, autonomy, false), host, 0, []).run.trace);
    }
  }

  lemma MarkedIsUnbalanced<H(!new)>(c: Context<H, int>, target: nat, host: H)
    requires !c.resumed && target < |c.plan.steps| && c.ports == Marking(target)
    requires Chargeable(c.plan, c.registry, c.autonomy, target)
    ensures !Exact(RunAll(c, host, 0, []).run.trace)
  {
    hide RunFrom, Exact, Chargeable;
    MarkingRun(c, target, 0, Start(host, 0, []));
    var t := RunAll(c, host, 0, []).run.trace;
    var k :| 0 <= k < |t| && t[k] == Effect(target, MARKED_AT, true, true);
    assert MARKED_AT != GRANT by { assert MARKED_AT[0] != GRANT[0]; }
    assert Weight(Misread, t[k]) == 1;
    ExactlyUnlessMisread(c, host, 0);
  }

  /** A one-step run on such ports takes effect, keeps its row, and hands its unit back. */
  lemma MarkedStepIsHandedBack<H(!new)>(plan: Plan, registry: Registry, autonomy: AutonomyMode, host: H)
    requires |plan.steps| == 1 && Chargeable(plan, registry, autonomy, 0)
    ensures var t := RunAll(Context(plan, registry, Marking(0), autonomy, false), host, 0, []).run.trace;
            Sum(t, {0}, Net) == 0 && Sum(t, {0}, Kept) == 1
  {
    hide VisitStep, Sum, Chargeable;
    var c := Context(plan, registry, Marking<H>(0), autonomy, false);
    MarkingVisit(c, 0, 0, Start(host, 0, []));
    var t := RunAll(c, host, 0, []).run.trace;
    var s1 := VisitStep(c, 0, Start(host, 0, [])).run;
    assert RunFrom(c, 1, s1).run.trace == s1.trace;
    assert t == s1.trace;
    BooksOf(t);
  }

  /** For one, a freeze at L3. */
  lemma FreezeIsHandedBack<H(!new)>(host: H)
    ensures var plan := Plan([PlanStep(Action("host.cgroup.freeze", map[]), None)], BlastRadius.Host, 1.0);
            var t := RunAll(Context(plan, map[], Marking(0), L3Assisted, false), host, 0, []).run.trace;
            Sum(t, {0}, Net) == 0 && Sum(t, {0}, Kept) == 1
  {
    hide RunAll, Sum;
    var plan := Plan([PlanStep(Action("host.cgroup.freeze", map[]), None)], BlastRadius.Host, 1.0);
    MarkedStepIsHandedBack(plan, map[], L3Assisted, host);
  }

  lemma BooksOf(t: seq<Event>)
    requires |t| == 5 && t[0].Decided? && t[1].Reserve? && t[1].granted && t[2].Effect? && t[4].Refund?
    requires t[3].Row? && !t[3].undo && t[3].verdict.VerdictAllow? && t[3].policyId == MARKED_AT && !t[3].noop
    requires forall k :: 0 <= k < 5 ==> t[k].index == 0
    ensures Sum(t, {0}, Net) == 0 && Sum(t, {0}, Kept) == 1
  {
    assert MARKED_AT != GRANT by { assert MARKED_AT[0] != GRANT[0]; }
    hide Sum;
    SumsOf(t, Net);
    SumsOf(t, Kept);
  }

  lemma SumsOf(t: seq<Event>, m: Measure)
    requires |t| == 5 && forall k :: 0 <= k < 5 ==> t[k].index == 0
    ensures Sum(t, {0}, m) == Weight(m, t[0]) + Weight(m, t[1]) + Weight(m, t[2]) + Weight(m, t[3]) + Weight(m, t[4])
  {
    hide Weight, Sum;
    SumUpTo(t, m, 0);
    SumUpTo(t, m, 1);
    SumUpTo(t, m, 2);
    SumUpTo(t, m, 3);
    SumUpTo(t, m, 4);
    assert t[..0] == [] && t[..5] == t;
    assert Sum([], {0}, m) == 0 by { SumNothing(m); }
  }

  lemma SumNothing(m: Measure)
    ensures Sum([], {0}, m) == 0
  {
  }

  lemma SumUpTo(t: seq<Event>, m: Measure, n: nat)
    requires n < |t| && t[n].index == 0
    ensures Sum(t[..n + 1], {0}, m) == Sum(t[..n], {0}, m) + Weight(m, t[n])
  {
    assert t[..n + 1][..n] == t[..n];
  }
}
