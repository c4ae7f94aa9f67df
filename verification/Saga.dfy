/** What a failed plan leaves behind: rollback restores the host, across a pause as well. */
module Saga {
  import opened Domain
  import opened Policy
  import opened Control

  /** Step `i`, found not to hold yet, can take the host from `before` to `after`. */
  ghost predicate Performs<H(!new), E(!new)>(plan: Plan, ports: Ports<H, E>, i: nat, before: H, after: H)
    requires i < |plan.steps|
  {
    exists env: E, policyId: string {:trigger ExecuteAction(ports, env, before, plan.steps[i].action, policyId)} ::
      var did := ExecuteAction(ports, env, before, plan.steps[i].action, policyId);
      && DesiredStateHolds(ports, env, before, plan.steps[i].action) == Some(false)
      && did.Done? && did.host == after
  }

  ghost predicate Indices(plan: Plan, executed: seq<nat>) {
    forall k :: 0 <= k < |executed| ==> executed[k] < |plan.steps|
  }

  /** `host` is what the executed steps, taken in list order, made of `origin`. */
  ghost predicate Reached<H(!new), E(!new)>(plan: Plan, ports: Ports<H, E>, origin: H, executed: seq<nat>, host: H)
    requires Indices(plan, executed)
    decreases |executed|
  {
    if executed == [] then host == origin
    else
      var n := |executed| - 1;
      exists mid: H ::
        Reached(plan, ports, origin, executed[..n], mid) && Performs(plan, ports, executed[n], mid, host)
  }

  /** A rollback that succeeds right after its step restores the host the step found. */
  ghost predicate RollbacksInvert<H(!new), E(!new)>(plan: Plan, ports: Ports<H, E>) {
    forall i: nat, before: H, after: H, env: E
      {:trigger Performs(plan, ports, i, before, after), ports.perform(env, after, plan.steps[i].rollback.value, ROLLBACK)} ::
      i < |plan.steps| && plan.steps[i].rollback.Some? && Performs(plan, ports, i, before, after) ==>
        var undid := ports.perform(env, after, plan.steps[i].rollback.value, ROLLBACK);
        undid.Done? ==> undid.host == before
  }

  /** A step that fails changes nothing. */
  ghost predicate FailuresInert<H(!new), E(!new)>(ports: Ports<H, E>) {
    forall env: E, host: H, action: Action, policyId: string ::
      ports.perform(env, host, action, policyId).Failed? ==> ports.perform(env, host, action, policyId).host == host
  }

  /** `host` is what the first `k` executed steps made of `origin`: all of them undone exactly when `k` is 0. */
  ghost predicate UndoneTo<H(!new), E(!new)>(plan: Plan, ports: Ports<H, E>, origin: H, r: Run<H, E>, k: nat)
    requires Indices(plan, r.executed)
  {
    && k <= |r.executed|
    && Reached(plan, ports, origin, r.executed[..k], r.host)
    && (r.status.RolledBack? <==> k == 0)
  }

  /** Returns how many of the executed steps the undo left standing. */
  lemma {:induction false} UndoRestores<H(!new), E(!new)>(c: Context<H, E>, s: Run<H, E>, n: nat, origin: H) returns (k: nat)
    requires n <= |s.executed| && c.Valid(s.executed)
    requires RollbacksInvert(c.plan, c.ports) && FailuresInert(c.ports)
    requires Reached(c.plan, c.ports, origin, s.executed[..n], s.host)
    ensures k <= n && UndoneTo(c.plan, c.ports, origin, UndoFrom(c, s, n), k)
    decreases n
  {
    k := n;
    if n > 0 {
      var i := s.executed[n - 1];
      assert s.executed[..n][..n - 1] == s.executed[..n - 1];
      var mid :| Reached(c.plan, c.ports, origin, s.executed[..n - 1], mid) && Performs(c.plan, c.ports, i, mid, s.host);
      if c.plan.steps[i].rollback.Some? {
        var (s1, ok) := TryUndo(c, s, i);
        if ok {
          assert s1.host == mid;
          k := UndoRestores(c, s1, n - 1, origin);
        }
      }
    }
  }

  lemma FailStopRestores<H(!new), E(!new)>(c: Context<H, E>, i: nat, policyId: string, s: Run<H, E>, origin: H)
    requires c.Valid(s.executed)
    requires RollbacksInvert(c.plan, c.ports) && FailuresInert(c.ports)
    requires Reached(c.plan, c.ports, origin, s.executed, s.host)
    ensures StoppedBadly(c.plan, c.ports, origin, FailStop(c, i, policyId, s))
  {
    var s1 := s.(executions := s.executions + [Execution(i, false, false)], status := PlanStatus.Failed)
    .Log([Row(i, false, VerdictAllow, policyId, RowFailed, false)]);
    if s.executed != [] {
      var s2 := s1.(status := RollingBack);
      assert s2.executed[..|s2.executed|] == s.executed;
      var k := UndoRestores(c, s2, |s2.executed|, origin);
    }
  }

  /** After a failed step: nothing had run, or some number of the executed steps still stands, none when RolledBack. */
  ghost predicate StoppedBadly<H(!new), E(!new)>(plan: Plan, ports: Ports<H, E>, origin: H, r: Run<H, E>) {
    && Indices(plan, r.executed)
    && r.status in {PlanStatus.Failed, RolledBack, NeedsManual}
    && (r.status.Failed? <==> r.executed == [])
    && (r.status.Failed? || r.status.RolledBack? ==> r.host == origin)
    && (!r.status.Failed? ==> exists k: nat :: UndoneTo(plan, ports, origin, r, k))
  }

  /** A run in progress or ended well is `Reached`; one ended badly stands at a prefix of what it executed. */
  ghost predicate Contained<H(!new), E(!new)>(plan: Plan, ports: Ports<H, E>, origin: H, p: Progress<H, E>) {
    && Indices(plan, p.run.executed)
    && (!p.Finished? || p.run.status in {Completed, Denied} ==> Reached(plan, ports, origin, p.run.executed, p.run.host))
    && (p.Finished? && p.run.status !in {Completed, Denied} ==> StoppedBadly(plan, ports, origin, p.run))
  }

  lemma ReachedExtends<H(!new), E(!new)>(plan: Plan, ports: Ports<H, E>, origin: H, executed: seq<nat>, mid: H, i: nat, host: H)
    requires Indices(plan, executed) && i < |plan.steps|
    requires Reached(plan, ports, origin, executed, mid) && Performs(plan, ports, i, mid, host)
    ensures Reached(plan, ports, origin, executed + [i], host)
  {
    assert (executed + [i])[..|executed|] == executed;
  }

  lemma ExecuteSaga<H(!new), E(!new)>(c: Context<H, E>, i: nat, policyId: string, s: Run<H, E>, origin: H)
    requires i < |c.plan.steps| && c.Valid(s.executed)
    requires RollbacksInvert(c.plan, c.ports) && FailuresInert(c.ports)
    requires Reached(c.plan, c.ports, origin, s.executed, s.host)
    ensures var (r, terminal) := ExecuteAllowed(c, i, policyId, s);
            Contained(c.plan, c.ports, origin, if terminal then Finished(r) else Continue(r))
  {
    hide FailStop, Reached, RollbacksInvert, StoppedBadly;
    var action := c.plan.steps[i].action;
    var holds := DesiredStateHolds(c.ports, s.env, s.host, action);
    if holds == None {
      FailStopRestores(c, i, policyId, s, origin);
    } else if holds == Some(false) {
      var did := ExecuteAction(c.ports, s.env, s.host, action, policyId);
      if did.Done? {
        assert Performs(c.plan, c.ports, i, s.host, did.host);
        ReachedExtends(c.plan, c.ports, origin, s.executed, s.host, i, did.host);
      } else {
        FailStopRestores(c, i, policyId, s.(host := did.host, env := did.env).Log([Effect(i, policyId, false, false)]), origin);
      }
    }
  }

  /** Whatever the gates rule, one step keeps the host contained. */
  lemma ActSaga<H(!new), E(!new)>(c: Context<H, E>, i: nat, s: Run<H, E>, g: Gated<E>, origin: H)
    requires i < |c.plan.steps| && c.Valid(s.executed)
    requires RollbacksInvert(c.plan, c.ports) && FailuresInert(c.ports)
    requires Reached(c.plan, c.ports, origin, s.executed, s.host)
    ensures Contained(c.plan, c.ports, origin, Act(c, i, s, g))
  {
    if g.ruling.Proceed? {
      ExecuteSaga(c, i, g.ruling.policyId, s.(env := g.env).Log(g.events), origin);
    }
  }

  lemma VisitSaga<H(!new), E(!new)>(c: Context<H, E>, i: nat, s: Run<H, E>, origin: H)
    requires i < |c.plan.steps| && c.Valid(s.executed)
    requires RollbacksInvert(c.plan, c.ports) && FailuresInert(c.ports)
    requires Reached(c.plan, c.ports, origin, s.executed, s.host)
    ensures Contained(c.plan, c.ports, origin, VisitStep(c, i, s))
  {
    if !(c.resumed && i in s.executed) {
      ActSaga(c, i, s, Gate(c, i, s.env), origin);
    }
  }

  lemma {:induction false} RunSaga<H(!new), E(!new)>(c: Context<H, E>, i: nat, s: Run<H, E>, origin: H)
    requires i <= |c.plan.steps| && c.Valid(s.executed)
    requires RollbacksInvert(c.plan, c.ports) && FailuresInert(c.ports)
    requires Reached(c.plan, c.ports, origin, s.executed, s.host)
    ensures Contained(c.plan, c.ports, origin, RunFrom(c, i, s))
    decreases |c.plan.steps| - i
  {
    hide VisitStep;
    if i < |c.plan.steps| {
      VisitSaga(c, i, s, origin);
      if VisitStep(c, i, s).Continue? {
        RunSaga(c, i + 1, VisitStep(c, i, s).run, origin);
      }
    }
  }

  /**
   * Restoration: a first run that ends Failed or RolledBack leaves the host as it found it; and a
   * run paused anywhere and then resumed (under any registry, level and port state, the host
   * untouched in between) does too, undoing what ran before the pause. A run that ends NeedsManual
   * leaves exactly what some non-empty prefix of the executed steps, of both runs, made of it.
   */
  lemma RestorationAcrossPause<H(!new), E(!new)>(
    c: Context<H, E>, host: H, env: E, registry: Registry, autonomy: AutonomyMode, env2: E)
    requires RollbacksInvert(c.plan, c.ports) && FailuresInert(c.ports)
    ensures var first := RunAll(c, host, env, []);
            && Restores(c.plan, c.ports, host, first)
            && (first.Paused? ==>
                  var c2 := c.(registry := registry, autonomy := autonomy, resumed := true);
                  Restores(c.plan, c.ports, host, RunAll(c2, first.run.host, env2, first.run.executed)))
  {
    hide RunFrom, Reached, StoppedBadly;
    RunSaga(c, 0, Start(host, env, []), host) by {
      assert Reached(c.plan, c.ports, host, [], host) by { ReachedNothing(c.plan, c.ports, host); }
    }
    var first := RunAll(c, host, env, []);
    ContainedRestores(c.plan, c.ports, host, first);
    if first.Paused? {
      var c2 := c.(registry := registry, autonomy := autonomy, resumed := true);
      RunSaga(c2, 0, Start(first.run.host, env2, first.run.executed), host);
      ContainedRestores(c.plan, c.ports, host, RunAll(c2, first.run.host, env2, first.run.executed));
    }
  }

  lemma ReachedNothing<H(!new), E(!new)>(plan: Plan, ports: Ports<H, E>, origin: H)
    ensures Reached(plan, ports, origin, [], origin)
  {
  }

  /** What a run says about the host it leaves, by its status. */
  ghost predicate Restores<H(!new), E(!new)>(plan: Plan, ports: Ports<H, E>, origin: H, p: Progress<H, E>) {
    && Indices(plan, p.run.executed)
    && (p.Finished? && p.run.status in {PlanStatus.Failed, RolledBack} ==> p.run.host == origin)
    && (p.Paused? || (p.Finished? && p.run.status in {Completed, Denied}) ==>
          Reached(plan, ports, origin, p.run.executed, p.run.host))
    && (p.Finished? && p.run.status.NeedsManual? ==>
          exists k :: 0 < k <= |p.run.executed| && Reached(plan, ports, origin, p.run.executed[..k], p.run.host))
  }

  lemma ContainedRestores<H(!new), E(!new)>(plan: Plan, ports: Ports<H, E>, origin: H, p: Progress<H, E>)
    requires Contained(plan, ports, origin, p)
    ensures Restores(plan, ports, origin, p)
  {
    hide Reached;
    if p.Finished? && p.run.status.NeedsManual? {
      var k: nat :| UndoneTo(plan, ports, origin, p.run, k);
      assert k > 0;
    }
  }

  // ---------------------------------------------------------------- hosts that meet the hypotheses

  /** One unit that a start brings up and a stop takes down, whatever it was before; nothing else is offered. */
  function Switch<E(!new)>(): Ports<bool, E> {
    Ports([],
          (env: E, action: Action, i: nat) => (true, env),
          (env: E, action: Action, risk: RiskClass, scope: BlastRadius, approval: bool) => (Decision(Allow, "switch"), env),
          (env: E) => 0,
          (env: E, risk: RiskClass, scope: BlastRadius, at: int) => (true, env),
          (env: E, risk: RiskClass, scope: BlastRadius, at: int) => env,
          (env: E, up: bool, action: Action) => Some(up),
          (env: E, up: bool, action: Action, policyId: string) =>
            if action.capability == "host.service.start" then Performed.Done(true, env, false)
            else if action.capability == "host.service.stop" then Performed.Done(false, env, false)
            else Performed.Failed(up, env))
  }

  /** Every step starts the unit and is rolled back by stopping it, or the other way round. */
  predicate Toggles(plan: Plan) {
    forall k :: 0 <= k < |plan.steps| ==>
      && plan.steps[k].rollback.Some?
      && (|| (plan.steps[k].action.capability == "host.service.start" && plan.steps[k].rollback.value.capability == "host.service.stop")
          || (plan.steps[k].action.capability == "host.service.stop" && plan.steps[k].rollback.value.capability == "host.service.start"))
  }

  /** The hypotheses of restoration hold of that idempotent unit and every such plan. */
  lemma SwitchMeetsHypotheses<E(!new)>(plan: Plan)
    requires Toggles(plan)
    ensures RollbacksInvert(plan, Switch<E>()) && FailuresInert(Switch<E>())
  {
    var ports := Switch<E>();
    assert "host.service.start" != "host.service.stop" by { assert |"host.service.start"| == 18 && |"host.service.stop"| == 17; }
    forall i: nat, before: bool, after: bool, env: E
      | i < |plan.steps| && plan.steps[i].rollback.Some? && Performs(plan, ports, i, before, after)
      ensures var undid := ports.perform(env, after, plan.steps[i].rollback.value, ROLLBACK);
              undid.Done? ==> undid.host == before
    {
      var env1: E, policyId: string :|
        var did := ExecuteAction(ports, env1, before, plan.steps[i].action, policyId);
        && DesiredStateHolds(ports, env1, before, plan.steps[i].action) == Some(false)
        && did.Done? && did.host == after;
      assert ports.observe(env1, before, plan.steps[i].action) == Some(before);
    }
  }
}
