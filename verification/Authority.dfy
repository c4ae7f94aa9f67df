/** No bypass: nothing takes effect, and nothing is refunded, without what justifies it earlier in the same run. */
module Authority {
  import opened Domain
  import opened Policy
  import opened Control

  /**
   * The authority an event needs among the events before it. An effect needs the governor (when
   * the step is governed) and then either policy Allow with matrix, escalation and, unless an
   * operator's grant stands in for it, a granted budget unit; or, on a resumed run only, the
   * consumed grant in place of a required approval. A refund needs the reservation it surrenders.
   */
  ghost predicate Justified<H, E>(c: Context<H, E>, t: seq<Event>, event: Event) {
    match event
    case Effect(i, policyId, _, _) =>
      && i < |c.plan.steps|
      && (c.Governed(i) ==> Governor(i, true) in t)
      && (|| (&& Decided(i, Allow, policyId) in t
              && c.Matrix(i) && !c.Escalates(i)
              && (c.resumed || policyId == GRANT
                  || exists at :: Reserve(i, c.Risk(i), c.plan.blastRadius, at, true) in t))
          || (&& c.resumed && policyId == GRANT
              && exists id :: Decided(i, RequireApproval, id) in t))
    case Refund(i, risk, scope, at) => Reserve(i, risk, scope, at, true) in t
    case _ => true
  }

  ghost predicate AllJustified<H, E>(c: Context<H, E>, t: seq<Event>) {
    forall k :: 0 <= k < |t| ==> Justified(c, t[..k], t[k])
  }

  lemma JustifiedLater<H, E>(c: Context<H, E>, a: seq<Event>, b: seq<Event>, event: Event)
    requires Justified(c, b, event)
    ensures Justified(c, a + b, event) && Justified(c, b + a, event)
  {
    if event.Effect? {
      var i := event.index;
      if at :| Reserve(i, c.Risk(i), c.plan.blastRadius, at, true) in b {
        assert Reserve(i, c.Risk(i), c.plan.blastRadius, at, true) in a + b;
        assert Reserve(i, c.Risk(i), c.plan.blastRadius, at, true) in b + a;
      }
      if id :| Decided(i, RequireApproval, id) in b {
        assert Decided(i, RequireApproval, id) in a + b;
        assert Decided(i, RequireApproval, id) in b + a;
      }
    }
  }

  lemma AllJustifiedAppend<H, E>(c: Context<H, E>, t: seq<Event>, event: Event)
    requires AllJustified(c, t) && Justified(c, t, event)
    ensures AllJustified(c, t + [event])
  {
    forall k | 0 <= k < |t| + 1 ensures Justified(c, (t + [event])[..k], (t + [event])[k]) {
      assert (t + [event])[..k] == t[..k];
    }
  }

  lemma AllJustifiedConcat<H, E>(c: Context<H, E>, a: seq<Event>, b: seq<Event>)
    requires AllJustified(c, a) && AllJustified(c, b)
    ensures AllJustified(c, a + b)
  {
    forall k | 0 <= k < |a + b| ensures Justified(c, (a + b)[..k], (a + b)[k]) {
      if k < |a| {
        assert (a + b)[..k] == a[..k];
      } else {
        assert (a + b)[..k] == a + b[..k - |a|];
        JustifiedLater(c, a, b[..k - |a|], b[k - |a|]);
      }
    }
  }

  lemma AppendPair<H, E>(c: Context<H, E>, t: seq<Event>, x: Event, y: Event)
    requires AllJustified(c, t) && Justified(c, t, x) && !y.Effect? && !y.Refund?
    ensures AllJustified(c, t + [x, y])
  {
    AllJustifiedAppend(c, t, x);
    AllJustifiedAppend(c, t + [x], y);
    assert t + [x] + [y] == t + [x, y];
  }

  // ---------------------------------------------------------------- the gates

  /** A ruling to proceed comes with everything its effect, and a later refund, will need. */
  ghost predicate Warranted<H, E>(c: Context<H, E>, i: nat, g: Gated<E>) {
    && AllJustified(c, g.events)
    && (g.ruling.Proceed? ==>
          && (forall ok, marked :: Justified(c, g.events, Effect(i, g.ruling.policyId, ok, marked)))
          && (forall at :: g.ruling.charge == Some(at) && i < |c.plan.steps| ==>
                Reserve(i, c.Risk(i), c.plan.blastRadius, at, true) in g.events))
  }

  lemma AutonomyGateWarrants<H, E>(c: Context<H, E>, i: nat, policyId: string, env: E, events: seq<Event>, charge: Option<int>)
    requires i < |c.plan.steps| && AllJustified(c, events)
    requires c.Governed(i) ==> Governor(i, true) in events
    requires Decided(i, Allow, policyId) in events
    requires charge.None? ==> c.resumed || policyId == GRANT
    requires charge.Some? ==> Reserve(i, c.Risk(i), c.plan.blastRadius, charge.value, true) in events
    ensures Warranted(c, i, AutonomyGate(c, i, policyId, env, events, charge))
  {
    if charge.Some? && (!c.Matrix(i) || c.Escalates(i)) {
      AllJustifiedAppend(c, events, Refund(i, c.Risk(i), c.plan.blastRadius, charge.value));
    }
  }

  lemma BudgetGateWarrants<H, E>(c: Context<H, E>, i: nat, policyId: string, env: E, events: seq<Event>)
    requires i < |c.plan.steps| && AllJustified(c, events)
    requires c.Governed(i) ==> Governor(i, true) in events
    requires Decided(i, Allow, policyId) in events
    ensures Warranted(c, i, BudgetGate(c, i, policyId, env, events))
  {
    hide AutonomyGate;
    if c.resumed || policyId == GRANT {
      AutonomyGateWarrants(c, i, policyId, env, events, None);
    } else {
      var at := c.ports.clock(env);
      var (granted, env1) := c.ports.reserve(env, c.Risk(i), c.plan.blastRadius, at);
      AllJustifiedAppend(c, events, Reserve(i, c.Risk(i), c.plan.blastRadius, at, granted));
      if granted {
        AutonomyGateWarrants(c, i, policyId, env1, events + [Reserve(i, c.Risk(i), c.plan.blastRadius, at, true)], Some(at));
      }
    }
  }

  lemma PolicyGateWarrants<H, E>(c: Context<H, E>, i: nat, env: E, events: seq<Event>)
    requires i < |c.plan.steps| && AllJustified(c, events)
    requires c.Governed(i) ==> Governor(i, true) in events
    ensures Warranted(c, i, PolicyGate(c, i, env, events))
  {
    hide BudgetGate;
    var capability := c.Capability(i);
    var needsApproval := capability in c.registry ==> c.registry[capability].requiresApproval;
    var (d, env1) := c.ports.decide(env, c.plan.steps[i].action, c.Risk(i), c.plan.blastRadius, needsApproval);
    var events1 := events + [Decided(i, d.outcome, d.policyId)];
    AllJustifiedAppend(c, events, Decided(i, d.outcome, d.policyId));
    assert Decided(i, d.outcome, d.policyId) in events1;
    if d.outcome.Allow? {
      BudgetGateWarrants(c, i, d.policyId, env1, events1);
    }
  }

  lemma GateWarrants<H, E>(c: Context<H, E>, i: nat, env: E)
    requires i < |c.plan.steps|
    ensures Warranted(c, i, Gate(c, i, env))
  {
    hide PolicyGate;
    if c.Governed(i) {
      var (allowed, env1) := c.ports.govern(env, c.plan.steps[i].action, i);
      AllJustifiedAppend(c, [], Governor(i, allowed));
      assert [] + [Governor(i, allowed)] == [Governor(i, allowed)];
      if allowed {
        PolicyGateWarrants(c, i, env1, [Governor(i, true)]);
      }
    } else {
      PolicyGateWarrants(c, i, env, []);
    }
  }

  // ---------------------------------------------------------------- runs

  lemma {:induction false} UndoJustified<H, E>(c: Context<H, E>, s: Run<H, E>, n: nat)
    requires n <= |s.executed| && c.Valid(s.executed) && AllJustified(c, s.trace)
    ensures AllJustified(c, UndoFrom(c, s, n).trace)
    decreases n
  {
    hide AllJustified;
    if n > 0 && c.plan.steps[s.executed[n - 1]].rollback.Some? {
      var (s1, ok) := TryUndo(c, s, s.executed[n - 1]);
      AppendPair(c, s.trace, s1.trace[|s.trace|], s1.trace[|s.trace| + 1]);
      hide TryUndo;
      if ok {
        UndoJustified(c, s1, n - 1);
      }
    }
  }

  lemma FailStopJustified<H, E>(c: Context<H, E>, i: nat, policyId: string, s: Run<H, E>)
    requires c.Valid(s.executed) && AllJustified(c, s.trace)
    ensures AllJustified(c, FailStop(c, i, policyId, s).trace)
  {
    hide UndoFrom, AllJustified;
    var row := Row(i, false, VerdictAllow, policyId, RowFailed, false);
    AllJustifiedAppend(c, s.trace, row);
    var s1 := s.(executions := s.executions + [Execution(i, false, false)], status := PlanStatus.Failed).Log([row]);
    UndoJustified(c, s1.(status := RollingBack), |s1.executed|);
  }

  lemma ExecuteJustified<H, E>(c: Context<H, E>, i: nat, policyId: string, s: Run<H, E>)
    requires i < |c.plan.steps| && c.Valid(s.executed) && AllJustified(c, s.trace)
    requires forall ok, marked :: Justified(c, s.trace, Effect(i, policyId, ok, marked))
    ensures AllJustified(c, ExecuteAllowed(c, i, policyId, s).0.trace)
  {
    hide FailStop, AllJustified, Justified, ExecuteAction;
    var holds := DesiredStateHolds(c.ports, s.env, s.host, c.plan.steps[i].action);
    if holds == None {
      FailStopJustified(c, i, policyId, s);
    } else if holds == Some(true) {
      AppendRow(c, s.trace, Row(i, false, VerdictAllow, policyId, RowOk, true));
    } else {
      var did := ExecuteAction(c.ports, s.env, s.host, c.plan.steps[i].action, policyId);
      if did.Done? {
        AppendPair(c, s.trace, Effect(i, policyId, true, did.marked), Row(i, false, VerdictAllow, policyId, RowOk, false));
      } else {
        AllJustifiedAppend(c, s.trace, Effect(i, policyId, false, false));
        var s1 := s.(host := did.host, env := did.env).Log([Effect(i, policyId, false, false)]);
        FailStopJustified(c, i, policyId, s1);
      }
    }
  }

  lemma AppendRow<H, E>(c: Context<H, E>, t: seq<Event>, row: Event)
    requires AllJustified(c, t) && row.Row?
    ensures AllJustified(c, t + [row])
  {
    AllJustifiedAppend(c, t, row);
  }

  lemma ActJustified<H, E>(c: Context<H, E>, i: nat, s: Run<H, E>, g: Gated<E>)
    requires i < |c.plan.steps| && c.Valid(s.executed) && AllJustified(c, s.trace) && Warranted(c, i, g)
    ensures AllJustified(c, Act(c, i, s, g).run.trace)
  {
    hide ExecuteAllowed, AllJustified, Justified;
    var s1 := s.(env := g.env).Log(g.events);
    AllJustifiedConcat(c, s.trace, g.events);
    match g.ruling
    case Refuse(policyId) => AppendRow(c, s1.trace, Row(i, false, VerdictDeny, policyId, RowDenied, false));
    case Pause(policyId) => AppendRow(c, s1.trace, Row(i, false, VerdictRequiresApproval, policyId, RowAwaiting, false));
    case Proceed(policyId, charge) =>
      forall ok, marked ensures Justified(c, s1.trace, Effect(i, policyId, ok, marked)) {
        JustifiedLater(c, s.trace, g.events, Effect(i, policyId, ok, marked));
      }
      ExecuteJustified(c, i, policyId, s1);
      if charge.Some? {
        RefundJustified(c, s1.trace, ExecuteAllowed(c, i, policyId, s1).0.trace, i, charge.value);
      }
  }

  lemma RefundJustified<H, E>(c: Context<H, E>, prefix: seq<Event>, t: seq<Event>, i: nat, at: int)
    requires i < |c.plan.steps| && AllJustified(c, t)
    requires prefix <= t && Reserve(i, c.Risk(i), c.plan.blastRadius, at, true) in prefix
    ensures AllJustified(c, t + [Refund(i, c.Risk(i), c.plan.blastRadius, at)])
  {
    assert t == prefix + t[|prefix|..];
    AllJustifiedAppend(c, t, Refund(i, c.Risk(i), c.plan.blastRadius, at));
  }

  lemma VisitJustified<H, E>(c: Context<H, E>, i: nat, s: Run<H, E>)
    requires i < |c.plan.steps| && c.Valid(s.executed) && AllJustified(c, s.trace)
    ensures AllJustified(c, VisitStep(c, i, s).run.trace)
  {
    hide Gate, Act, AllJustified;
    GateWarrants(c, i, s.env);
    ActJustified(c, i, s, Gate(c, i, s.env));
  }

  lemma {:induction false} RunJustified<H, E>(c: Context<H, E>, i: nat, s: Run<H, E>)
    requires i <= |c.plan.steps| && c.Valid(s.executed) && AllJustified(c, s.trace)
    ensures AllJustified(c, RunFrom(c, i, s).run.trace)
    decreases |c.plan.steps| - i
  {
    hide VisitStep, AllJustified;
    if i < |c.plan.steps| {
      VisitJustified(c, i, s);
      if VisitStep(c, i, s).Continue? {
        RunJustified(c, i + 1, VisitStep(c, i, s).run);
      }
    }
  }

  /** Every effect and refund of every run is justified by what the same run did before it. */
  lemma NoBypass<H, E>(c: Context<H, E>, host: H, env: E, before: seq<nat>)
    requires c.Valid(before)
    ensures AllJustified(c, RunAll(c, host, env, before).run.trace)
  {
    hide RunFrom;
    RunJustified(c, 0, Start(host, env, before));
  }

  /** A first run only ever touches what `AutomaticReach` describes: no grant, so no high risk, at any level. */
  lemma FirstRunsStayBounded<H, E>(c: Context<H, E>, host: H, env: E, k: nat)
    requires !c.resumed
    requires k < |RunAll(c, host, env, []).run.trace| && RunAll(c, host, env, []).run.trace[k].Effect?
    ensures var i := RunAll(c, host, env, []).run.trace[k].index;
            && i < |c.plan.steps|
            && c.autonomy.Rank() >= 3
            && !c.Risk(i).HighRisk? && !c.Risk(i).Destructive?
            && (IsMcp(c.Capability(i)) ==> c.Capability(i) in c.registry)
            && (EscalationBounded(c.autonomy) ==> c.plan.confidence >= CONFIDENT)
  {
    hide RunAll;
    NoBypass(c, host, env, []);
    var t := RunAll(c, host, env, []).run.trace;
    assert Justified(c, t[..k], t[k]);
    AutomaticReach(c.plan, c.registry, t[k].index, c.autonomy);
  }

  /** At L3 a first run takes effect on services, the freezer and harmlessly registered external tools only. */
  lemma AssistedRunsTouchOnly<H, E>(c: Context<H, E>, host: H, env: E, k: nat)
    requires !c.resumed && c.autonomy.L3Assisted?
    requires k < |RunAll(c, host, env, []).run.trace| && RunAll(c, host, env, []).run.trace[k].Effect?
    ensures var i := RunAll(c, host, env, []).run.trace[k].index;
            && i < |c.plan.steps|
            && (|| c.Capability(i) in SERVICE_AND_FREEZER
                || (IsMcp(c.Capability(i)) && c.Capability(i) in c.registry && c.registry[c.Capability(i)].risk in {Read, LowRisk}))
  {
    hide RunAll;
    NoBypass(c, host, env, []);
    var t := RunAll(c, host, env, []).run.trace;
    assert Justified(c, t[..k], t[k]);
    AssistedReach(c.Capability(t[k].index), c.registry);
  }
}
