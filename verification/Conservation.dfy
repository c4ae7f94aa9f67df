/** The blast-radius budget over a whole run: what stays reserved is what reached execution. */
module Conservation {
  import opened Domain
  import opened Control

  datatype Measure = Net | Kept | Misread | Drift

  /**
   * `Net` counts granted reservations minus refunds. `Kept` counts the steps that reached
   * execution on their own authority and were not already in the desired state. `Misread` counts
   * the effects whose own evidence carries the marker the loop takes for a no-op. `Drift` is what
   * the three leave unexplained.
   */
  function Weight(measure: Measure, event: Event): int
    decreases measure.Drift?
  {
    match measure
    case Net => if event.Reserve? && event.granted then 1 else if event.Refund? then -1 else 0
    case Kept =>
      if event.Row? && !event.undo && event.verdict.VerdictAllow? && event.policyId != GRANT && !event.noop then 1 else 0
    case Misread => if event.Effect? && event.ok && event.marked && event.policyId != GRANT then 1 else 0
    case Drift => Weight(Net, event) - Weight(Kept, event) + Weight(Misread, event)
  }

  /** The total over the events of the steps in `steps`. */
  function Sum(t: seq<Event>, steps: set<nat>, measure: Measure): int {
    if t == [] then 0
    else
      var n := |t| - 1;
      Sum(t[..n], steps, measure) + if t[n].index in steps then Weight(measure, t[n]) else 0
  }

  lemma {:induction false} DriftSums(t: seq<Event>, steps: set<nat>)
    ensures Sum(t, steps, Drift) == Sum(t, steps, Net) - Sum(t, steps, Kept) + Sum(t, steps, Misread)
  {
    if t != [] {
      DriftSums(t[..|t| - 1], steps);
    }
  }

  lemma {:induction false} SumConcat(a: seq<Event>, b: seq<Event>, steps: set<nat>)
    ensures Sum(a + b, steps, Drift) == Sum(a, steps, Drift) + Sum(b, steps, Drift)
  {
    if b == [] {
      assert a + b == a;
    } else {
      var n := |b| - 1;
      assert (a + b)[..|a| + n] == a + b[..n];
      SumConcat(a, b[..n], steps);
    }
  }

  lemma SumOne(t: seq<Event>, x: Event, steps: set<nat>)
    ensures Sum(t + [x], steps, Drift) == Sum(t, steps, Drift) + Units(steps, x.index, Weight(Drift, x))
  {
    assert (t + [x])[..|t|] == t;
  }

  lemma SumPair(t: seq<Event>, x: Event, y: Event, steps: set<nat>)
    ensures Sum(t + [x, y], steps, Drift) ==
            Sum(t, steps, Drift) + Units(steps, x.index, Weight(Drift, x)) + Units(steps, y.index, Weight(Drift, y))
  {
    assert t + [x, y] == t + [x] + [y];
    SumOne(t, x, steps);
    SumOne(t + [x], y, steps);
  }

  function Units(steps: set<nat>, i: nat, amount: int): int {
    if i in steps then amount else 0
  }

  // ---------------------------------------------------------------- gates

  /** What a gate's events are worth: one unit exactly when it lets a charged step proceed. */
  ghost predicate Charged<E>(i: nat, steps: set<nat>, g: Gated<E>) {
    Sum(g.events, steps, Drift) == Units(steps, i, if g.ruling.Proceed? && g.ruling.charge.Some? then 1 else 0)
  }

  lemma AutonomyGateCharges<H, E>(
    c: Context<H, E>, i: nat, policyId: string, env: E, events: seq<Event>, charge: Option<int>, steps: set<nat>)
    requires i < |c.plan.steps|
    requires Sum(events, steps, Drift) == Units(steps, i, if charge.Some? then 1 else 0)
    ensures Charged(i, steps, AutonomyGate(c, i, policyId, env, events, charge))
  {
    hide Sum;
    if charge.Some? {
      SumOne(events, Refund(i, c.Risk(i), c.plan.blastRadius, charge.value), steps);
    }
  }

  lemma BudgetGateCharges<H, E>(c: Context<H, E>, i: nat, policyId: string, env: E, events: seq<Event>, steps: set<nat>)
    requires i < |c.plan.steps| && Sum(events, steps, Drift) == 0
    ensures var g := BudgetGate(c, i, policyId, env, events);
            && Charged(i, steps, g)
            && (g.ruling.Proceed? ==>
                  && (g.ruling.charge.None? <==> c.resumed || g.ruling.policyId == GRANT)
                  && g.ruling.policyId == policyId)
            && (c.resumed ==> g.events == events)
  {
    hide Sum;
    if c.resumed || policyId == GRANT {
      AutonomyGateCharges(c, i, policyId, env, events, None, steps);
    } else {
      var at := c.ports.clock(env);
      var (granted, env1) := c.ports.reserve(env, c.Risk(i), c.plan.blastRadius, at);
      var reserve := Reserve(i, c.Risk(i), c.plan.blastRadius, at, granted);
      SumOne(events, reserve, steps);
      if granted {
        AutonomyGateCharges(c, i, policyId, env1, events + [reserve], Some(at), steps);
      }
    }
  }

  lemma PolicyGateCharges<H, E>(c: Context<H, E>, i: nat, env: E, events: seq<Event>, steps: set<nat>)
    requires i < |c.plan.steps| && Sum(events, steps, Drift) == 0 && NoBudget(events)
    ensures var g := PolicyGate(c, i, env, events);
            && Charged(i, steps, g)
            && (g.ruling.Proceed? ==> (g.ruling.charge.None? <==> c.resumed || g.ruling.policyId == GRANT))
            && (c.resumed ==> NoBudget(g.events))
  {
    hide Sum, BudgetGate;
    var capability := c.Capability(i);
    var needsApproval := capability in c.registry ==> c.registry[capability].requiresApproval;
    var (d, env1) := c.ports.decide(env, c.plan.steps[i].action, c.Risk(i), c.plan.blastRadius, needsApproval);
    var decided := Decided(i, d.outcome, d.policyId);
    SumOne(events, decided, steps);
    if d.outcome.Allow? {
      BudgetGateCharges(c, i, d.policyId, env1, events + [decided], steps);
    }
  }

  predicate NoBudget(t: seq<Event>) {
    forall k :: 0 <= k < |t| ==> !t[k].Reserve? && !t[k].Refund?
  }

  lemma GateCharges<H, E>(c: Context<H, E>, i: nat, env: E, steps: set<nat>)
    requires i < |c.plan.steps|
    ensures var g := Gate(c, i, env);
            && Charged(i, steps, g)
            && (g.ruling.Proceed? ==> (g.ruling.charge.None? <==> c.resumed || g.ruling.policyId == GRANT))
            && (c.resumed ==> NoBudget(g.events))
  {
    hide PolicyGate;
    if c.Governed(i) {
      var (allowed, env1) := c.ports.govern(env, c.plan.steps[i].action, i);
      SumOne([], Governor(i, allowed), steps);
      assert [] + [Governor(i, allowed)] == [Governor(i, allowed)];
      PolicyGateCharges(c, i, env1, [Governor(i, allowed)], steps);
    } else {
      PolicyGateCharges(c, i, env, [], steps);
    }
  }

  // ---------------------------------------------------------------- effects

  lemma {:induction false} UndoCostsNothing<H, E>(c: Context<H, E>, s: Run<H, E>, n: nat, steps: set<nat>)
    requires n <= |s.executed| && c.Valid(s.executed)
    ensures Sum(UndoFrom(c, s, n).trace, steps, Drift) == Sum(s.trace, steps, Drift)
    ensures NoBudget(s.trace) ==> NoBudget(UndoFrom(c, s, n).trace)
    decreases n
  {
    hide Sum;
    if n > 0 && c.plan.steps[s.executed[n - 1]].rollback.Some? {
      var (s1, ok) := TryUndo(c, s, s.executed[n - 1]);
      SumPair(s.trace, s1.trace[|s.trace|], s1.trace[|s.trace| + 1], steps);
      assert NoBudget(s.trace) ==> NoBudget(s1.trace);
      hide TryUndo;
      if ok {
        UndoCostsNothing(c, s1, n - 1, steps);
      }
    }
  }

  lemma FailStopCost<H, E>(c: Context<H, E>, i: nat, policyId: string, s: Run<H, E>, steps: set<nat>)
    requires c.Valid(s.executed)
    ensures Sum(FailStop(c, i, policyId, s).trace, steps, Drift) ==
            Sum(s.trace, steps, Drift) - Units(steps, i, if policyId != GRANT then 1 else 0)
    ensures NoBudget(s.trace) ==> NoBudget(FailStop(c, i, policyId, s).trace)
  {
    hide Sum, UndoFrom;
    var row := Row(i, false, VerdictAllow, policyId, RowFailed, false);
    var s1 := s.(executions := s.executions + [Execution(i, false, false)], status := PlanStatus.Failed).Log([row]);
    SumOne(s.trace, row, steps);
    assert NoBudget(s.trace) ==> NoBudget(s1.trace);
    UndoCostsNothing(c, s1.(status := RollingBack), |s1.executed|, steps);
  }

  /** The last recorded execution reads as a no-op, so its reservation is surrendered. */
  predicate ReadsAsNoOp<H, E>(s: Run<H, E>) {
    && s.executions != []
    && s.executions[|s.executions| - 1].completed && s.executions[|s.executions| - 1].alreadyDesired
  }

  lemma ExecuteCost<H, E>(c: Context<H, E>, i: nat, policyId: string, s: Run<H, E>, steps: set<nat>)
    requires i < |c.plan.steps| && c.Valid(s.executed)
    ensures var r := ExecuteAllowed(c, i, policyId, s).0;
            && Sum(r.trace, steps, Drift) ==
               Sum(s.trace, steps, Drift) - Units(steps, i, if policyId != GRANT && !ReadsAsNoOp(r) then 1 else 0)
            && (NoBudget(s.trace) ==> NoBudget(r.trace))
  {
    hide Sum, FailStop, ExecuteAction;
    var action := c.plan.steps[i].action;
    var holds := DesiredStateHolds(c.ports, s.env, s.host, action);
    if holds == None {
      FailStopCost(c, i, policyId, s, steps);
    } else if holds == Some(true) {
      SumOne(s.trace, Row(i, false, VerdictAllow, policyId, RowOk, true), steps);
    } else {
      var did := ExecuteAction(c.ports, s.env, s.host, action, policyId);
      if did.Done? {
        SumPair(s.trace, Effect(i, policyId, true, did.marked), Row(i, false, VerdictAllow, policyId, RowOk, false), steps);
      } else {
        var s1 := s.(host := did.host, env := did.env).Log([Effect(i, policyId, false, false)]);
        SumOne(s.trace, Effect(i, policyId, false, false), steps);
        FailStopCost(c, i, policyId, s1, steps);
      }
    }
  }

  // ---------------------------------------------------------------- runs

  ghost predicate Balanced(t: seq<Event>, steps: set<nat>) {
    Sum(t, steps, Drift) == 0
  }

  lemma ActBalances<H, E>(c: Context<H, E>, i: nat, s: Run<H, E>, g: Gated<E>, steps: set<nat>)
    requires i < |c.plan.steps| && c.Valid(s.executed) && Charged(i, steps, g)
    requires g.ruling.Proceed? ==> (g.ruling.charge.None? <==> c.resumed || g.ruling.policyId == GRANT)
    ensures !c.resumed && Balanced(s.trace, steps) ==> Balanced(Act(c, i, s, g).run.trace, steps)
    ensures c.resumed && NoBudget(s.trace) && NoBudget(g.events) ==> NoBudget(Act(c, i, s, g).run.trace)
  {
    hide Sum, ExecuteAllowed;
    var s1 := s.(env := g.env).Log(g.events);
    SumConcat(s.trace, g.events, steps);
    match g.ruling
    case Refuse(policyId) =>
      SumOne(s1.trace, Row(i, false, VerdictDeny, policyId, RowDenied, false), steps);
    case Pause(policyId) =>
      SumOne(s1.trace, Row(i, false, VerdictRequiresApproval, policyId, RowAwaiting, false), steps);
    case Proceed(policyId, charge) =>
      ExecuteCost(c, i, policyId, s1, steps);
      var s2 := ExecuteAllowed(c, i, policyId, s1).0;
      if charge.Some? {
        SumOne(s2.trace, Refund(i, c.Risk(i), c.plan.blastRadius, charge.value), steps);
      }
  }

  lemma VisitBalances<H, E>(c: Context<H, E>, i: nat, s: Run<H, E>, steps: set<nat>)
    requires i < |c.plan.steps| && c.Valid(s.executed)
    ensures !c.resumed && Balanced(s.trace, steps) ==> Balanced(VisitStep(c, i, s).run.trace, steps)
    ensures c.resumed && NoBudget(s.trace) ==> NoBudget(VisitStep(c, i, s).run.trace)
  {
    hide Gate, Act, Sum, Charged;
    GateCharges(c, i, s.env, steps);
    ActBalances(c, i, s, Gate(c, i, s.env), steps);
  }

  lemma {:induction false} RunBalances<H, E>(c: Context<H, E>, i: nat, s: Run<H, E>, steps: set<nat>)
    requires i <= |c.plan.steps| && c.Valid(s.executed)
    ensures !c.resumed && Balanced(s.trace, steps) ==> Balanced(RunFrom(c, i, s).run.trace, steps)
    ensures c.resumed && NoBudget(s.trace) ==> NoBudget(RunFrom(c, i, s).run.trace)
    decreases |c.plan.steps| - i
  {
    hide VisitStep, Sum;
    if i < |c.plan.steps| {
      VisitBalances(c, i, s, steps);
      if VisitStep(c, i, s).Continue? {
        RunBalances(c, i + 1, VisitStep(c, i, s).run, steps);
      }
    }
  }

  /**
   * Budget conservation, for every plan, outcome and set of steps: a first run keeps one unit for
   * each step of the set that reached execution on its own authority and was no no-op, less the
   * effects misread as no-ops; a resumed run neither reserves nor refunds.
   */
  lemma BudgetIsConserved<H, E>(c: Context<H, E>, host: H, env: E, before: seq<nat>, steps: set<nat>)
    requires c.Valid(before)
    ensures var t := RunAll(c, host, env, before).run.trace;
            && (!c.resumed ==> Sum(t, steps, Net) == Sum(t, steps, Kept) - Sum(t, steps, Misread))
            && (c.resumed ==> NoBudget(t))
  {
    hide RunFrom;
    RunBalances(c, 0, Start(host, env, before), steps);
    DriftSums(RunAll(c, host, env, before).run.trace, steps);
  }

  /** A step whose live state cannot be read runs nothing, and keeps its unit all the same. */
  lemma FailedReadKeepsItsUnit<H, E>(c: Context<H, E>, i: nat, policyId: string, charge: Option<int>, s: Run<H, E>)
    requires i < |c.plan.steps| && c.Valid(s.executed)
    requires DesiredStateHolds(c.ports, s.env, s.host, c.plan.steps[i].action).None?
    ensures var (r, terminal) := ExecuteAllowed(c, i, policyId, s);
            && terminal && Settle(c, i, charge, r) == r
            && forall k :: |s.trace| <= k < |r.trace| ==> !r.trace[k].Effect? && !r.trace[k].Refund?
  {
    hide DesiredStateHolds, UndoFrom;
    var row := Row(i, false, VerdictAllow, policyId, RowFailed, false);
    var s1 := s.(executions := s.executions + [Execution(i, false, false)], status := PlanStatus.Failed).Log([row]);
    if s.executed != [] {
      UndoOnlyUndoes(c, s1.(status := RollingBack), |s.executed|);
    }
  }

  lemma {:induction false} UndoOnlyUndoes<H, E>(c: Context<H, E>, s: Run<H, E>, n: nat)
    requires n <= |s.executed| && c.Valid(s.executed)
    ensures var r := UndoFrom(c, s, n);
            && s.trace <= r.trace
            && forall k :: |s.trace| <= k < |r.trace| ==> r.trace[k].Undo? || r.trace[k].Row?
    decreases n
  {
    hide ExecuteAction;
    if n > 0 && c.plan.steps[s.executed[n - 1]].rollback.Some? {
      var (s1, ok) := TryUndo(c, s, s.executed[n - 1]);
      if ok {
        UndoOnlyUndoes(c, s1, n - 1);
      }
    }
  }

  /** On every set of steps, net consumption is the number of kept steps. */
  ghost predicate Exact(t: seq<Event>) {
    forall steps: set<nat> :: Sum(t, steps, Net) == Sum(t, steps, Kept)
  }

  predicate NothingMisread(t: seq<Event>) {
    forall k :: 0 <= k < |t| ==> Weight(Misread, t[k]) == 0
  }

  /** Net equals the kept steps on every set of steps exactly when no effect's evidence carries the marker. */
  lemma ExactlyUnlessMisread<H, E>(c: Context<H, E>, host: H, env: E)
    requires !c.resumed
    ensures var t := RunAll(c, host, env, []).run.trace; Exact(t) <==> NothingMisread(t)
  {
    hide RunAll, Sum;
    var t := RunAll(c, host, env, []).run.trace;
    forall steps: set<nat> ensures Sum(t, steps, Net) == Sum(t, steps, Kept) - Sum(t, steps, Misread) {
      BudgetIsConserved(c, host, env, [], steps);
    }
    BalancedExactly(t);
  }

  lemma BalancedExactly(t: seq<Event>)
    requires forall steps: set<nat> :: Sum(t, steps, Net) == Sum(t, steps, Kept) - Sum(t, steps, Misread)
    ensures Exact(t) <==> NothingMisread(t)
  {
    hide Sum, Weight;
    if NothingMisread(t) {
      forall steps: set<nat> ensures Sum(t, steps, Net) == Sum(t, steps, Kept) {
        MisreadZero(t, steps);
      }
    } else {
      var k :| 0 <= k < |t| && Weight(Misread, t[k]) != 0;
      MisreadCounts(t, k);
      var one: set<nat> := {t[k].index};
      assert Sum(t, one, Net) != Sum(t, one, Kept);
    }
  }

  lemma {:induction false} MisreadZero(t: seq<Event>, steps: set<nat>)
    requires forall k :: 0 <= k < |t| ==> Weight(Misread, t[k]) == 0
    ensures Sum(t, steps, Misread) == 0
  {
    if t != [] {
      MisreadZero(t[..|t| - 1], steps);
    }
  }

  lemma {:induction false} MisreadCounts(t: seq<Event>, k: nat)
    requires k < |t| && Weight(Misread, t[k]) != 0
    ensures Sum(t, {t[k].index}, Misread) > 0
  {
    if k < |t| - 1 {
      MisreadCounts(t[..|t| - 1], k);
    } else {
      MisreadNat(t[..k], {t[k].index});
    }
  }

  lemma {:induction false} MisreadNat(t: seq<Event>, steps: set<nat>)
    ensures Sum(t, steps, Misread) >= 0
  {
    if t != [] {
      MisreadNat(t[..|t| - 1], steps);
    }
  }
}
