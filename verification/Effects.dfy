/** What every effect, rollback and row of a run says about the host: whose answer it is, and what was read first. */
module Effects {
  import opened Domain
  import opened Policy
  import opened Control
  import opened RunTrace

  /** The actions that reach a port: services that name their unit, the cluster and remediation families, external tools. */
  predicate Reaches(action: Action) {
    || (&& action.capability in {"host.service.restart", "host.service.stop", "host.service.start"}
        && "unit" in action.arguments)
    || action.capability in {"k8s.pod.restart", "k8s.pod.delete", "k8s.deployment.restart", "k8s.deployment.rollback",
                             "k8s.workload.scale", "k8s.node.cordon", "k8s.node.uncordon", "k8s.job.cleanup",
                             "k8s.cluster.read", "k8s.node.read", "k8s.pod.read", "k8s.deployment.read"}
    || action.capability in {"host.process.signal", "container.restart", "host.cgroup.freeze", "host.cgroup.thaw",
                             "host.memory.reclaim", "host.journal.vacuum"}
    || (|action.capability| >= 4 && action.capability[..4] == "mcp.")
  }

  /** The answer to performing an action on this host: the port's own, or a failure that changes nothing. */
  function Answer<H, E>(ports: Ports<H, E>, env: E, host: H, action: Action, policyId: string): Performed<H, E> {
    if Reaches(action) then ports.perform(env, host, action, policyId) else Performed.Failed(host, env)
  }

  lemma ExecutionAnswers<H, E>(ports: Ports<H, E>, env: E, host: H, action: Action, policyId: string)
    ensures ExecuteAction(ports, env, host, action, policyId) == Answer(ports, env, host, action, policyId)
  {
    assert IsMcp(action.capability) <==> |action.capability| >= 4 && action.capability[..4] == "mcp.";
    if IsMcp(action.capability) {
      assert action.capability[0] == 'm';
    }
  }

  /** The state the action aims at was read off this host and found to hold, or not to. */
  predicate Found<H, E>(ports: Ports<H, E>, env: E, host: H, action: Action, holds: bool) {
    var desired := DesiredState(action.capability);
    desired.Some? && ports.observe(env, host, action) == Some(if holds then desired.value else !desired.value)
  }

  /** The step still had to be taken on this host, and performing it there went this way. */
  predicate TookEffect<H, E>(c: Context<H, E>, i: nat, policyId: string, ok: bool, marked: bool, env: E, host: H)
    requires i < |c.plan.steps|
  {
    var action := c.plan.steps[i].action;
    var did := Answer(c.ports, env, host, action, policyId);
    && (DesiredState(action.capability).None? || Found(c.ports, env, host, action, false))
    && ok == did.Done? && marked == (did.Done? && did.marked)
  }

  predicate Undid<H, E>(c: Context<H, E>, i: nat, ok: bool, env: E, host: H)
    requires i < |c.plan.steps|
  {
    c.plan.steps[i].rollback.Some? && ok == Answer(c.ports, env, host, c.plan.steps[i].rollback.value, "plan.rollback").Done?
  }

  predicate Unreadable<H, E>(c: Context<H, E>, i: nat, env: E, host: H)
    requires i < |c.plan.steps|
  {
    var action := c.plan.steps[i].action;
    DesiredState(action.capability).Some? && c.ports.observe(env, host, action).None?
  }

  /** A row of success or failure follows its effect; one without an effect is a step found done, or found unreadable. */
  ghost predicate RowShown<H(!new), E(!new)>(c: Context<H, E>, t: seq<Event>, k: nat)
    requires k < |t| && t[k].Row?
  {
    var row := t[k];
    && row.index < |c.plan.steps|
    && (row.verdict.VerdictAllow? && !row.undo ==>
          if row.noop then exists env: E, host: H :: Found(c.ports, env, host, c.plan.steps[row.index].action, true)
          else
            || (k > 0 && t[k - 1].Effect? && t[k - 1].index == row.index && t[k - 1].policyId == row.policyId
                && t[k - 1].ok == row.result.RowOk?)
            || (row.result.RowFailed? && exists env: E, host: H :: Unreadable(c, row.index, env, host)))
  }

  ghost predicate Shown<H(!new), E(!new)>(c: Context<H, E>, t: seq<Event>, k: nat)
    requires k < |t|
  {
    match t[k]
    case Effect(i, policyId, ok, marked) =>
      i < |c.plan.steps| && exists env: E, host: H :: TookEffect(c, i, policyId, ok, marked, env, host)
    case Undo(i, ok) => i < |c.plan.steps| && exists env: E, host: H :: Undid(c, i, ok, env, host)
    case Row(_, _, _, _, _, _) => RowShown(c, t, k)
    case _ => true
  }

  ghost predicate AllShown<H(!new), E(!new)>(c: Context<H, E>, t: seq<Event>) {
    forall k :: 0 <= k < |t| ==> Shown(c, t, k)
  }

  lemma ShownConcat<H(!new), E(!new)>(c: Context<H, E>, a: seq<Event>, b: seq<Event>)
    requires AllShown(c, a) && AllShown(c, b)
    ensures AllShown(c, a + b)
  {
    hide TookEffect, Undid, Unreadable, Found;
    forall k | 0 <= k < |a + b| ensures Shown(c, a + b, k) {
      if k < |a| {
        assert Shown(c, a, k);
      } else {
        assert Shown(c, b, k - |a|);
      }
    }
  }

  lemma QuietIsShown<H(!new), E(!new)>(c: Context<H, E>, t: seq<Event>)
    requires Quiet(t)
    ensures AllShown(c, t)
  {
  }

  lemma {:induction false} UndoShown<H(!new), E(!new)>(c: Context<H, E>, s: Run<H, E>, n: nat)
    requires n <= |s.executed| && c.Valid(s.executed) && AllShown(c, s.trace)
    ensures AllShown(c, UndoFrom(c, s, n).trace)
    decreases n
  {
    hide ExecuteAction, AllShown;
    if n > 0 && c.plan.steps[s.executed[n - 1]].rollback.Some? {
      var index := s.executed[n - 1];
      TryUndoShown(c, s, index);
      if TryUndo(c, s, index).1 {
        UndoShown(c, TryUndo(c, s, index).0, n - 1);
      }
    }
  }

  lemma TryUndoShown<H(!new), E(!new)>(c: Context<H, E>, s: Run<H, E>, index: nat)
    requires index < |c.plan.steps| && c.plan.steps[index].rollback.Some? && AllShown(c, s.trace)
    ensures AllShown(c, TryUndo(c, s, index).0.trace)
  {
    hide ExecuteAction, Answer, AllShown;
    var action := c.plan.steps[index].rollback.value;
    ExecutionAnswers(c.ports, s.env, s.host, action, "plan.rollback");
    var ok := Answer(c.ports, s.env, s.host, action, "plan.rollback").Done?;
    var undo, row := Undo(index, ok), Row(index, true, VerdictAllow, ROLLBACK, if ok then RowRolledBack else RowFailed, false);
    assert TryUndo(c, s, index).0.trace == s.trace + [undo, row];
    assert Undid(c, index, ok, s.env, s.host);
    UndoPairShown(c, undo, row);
    ShownConcat(c, s.trace, [undo, row]);
  }

  lemma UndoPairShown<H(!new), E(!new)>(c: Context<H, E>, undo: Event, row: Event)
    requires undo.Undo? && undo.index < |c.plan.steps| && exists env: E, host: H :: Undid(c, undo.index, undo.ok, env, host)
    requires row.Row? && row.undo && row.index == undo.index
    ensures AllShown(c, [undo, row])
  {
    hide Undid;
  }

  lemma FailStopShown<H(!new), E(!new)>(c: Context<H, E>, i: nat, policyId: string, s: Run<H, E>)
    requires i < |c.plan.steps| && c.Valid(s.executed)
    requires AllShown(c, s.trace + [Row(i, false, VerdictAllow, policyId, RowFailed, false)])
    ensures AllShown(c, FailStop(c, i, policyId, s).trace)
  {
    hide AllShown, UndoFrom;
    var s1 := s.(executions := s.executions + [Execution(i, false, false)], status := PlanStatus.Failed)
    .Log([Row(i, false, VerdictAllow, policyId, RowFailed, false)]);
    if s1.executed != [] {
      UndoShown(c, s1.(status := RollingBack), |s1.executed|);
    }
  }

  lemma EffectShown<H(!new), E(!new)>(c: Context<H, E>, i: nat, policyId: string, ok: bool, marked: bool, row: Event, env: E, host: H)
    requires i < |c.plan.steps| && TookEffect(c, i, policyId, ok, marked, env, host)
    requires row.Row? && row.index == i && !row.undo && row.policyId == policyId && !row.noop && row.result.RowOk? == ok
    ensures AllShown(c, [Effect(i, policyId, ok, marked), row])
  {
    hide TookEffect;
  }

  lemma ReadShown<H(!new), E(!new)>(c: Context<H, E>, row: Event, env: E, host: H)
    requires row.Row? && !row.undo && row.index < |c.plan.steps|
    requires
      || (row.noop && Found(c.ports, env, host, c.plan.steps[row.index].action, true))
      || (!row.noop && row.result.RowFailed? && Unreadable(c, row.index, env, host))
    ensures AllShown(c, [row])
  {
    hide Found, Unreadable;
  }

  lemma ExecuteShown<H(!new), E(!new)>(c: Context<H, E>, i: nat, policyId: string, s: Run<H, E>)
    requires i < |c.plan.steps| && c.Valid(s.executed) && AllShown(c, s.trace)
    ensures AllShown(c, ExecuteAllowed(c, i, policyId, s).0.trace)
  {
    hide ExecuteAction, AllShown, FailStop, DesiredState, Answer;
    var action := c.plan.steps[i].action;
    var holds := DesiredStateHolds(c.ports, s.env, s.host, action);
    var failed := Row(i, false, VerdictAllow, policyId, RowFailed, false);
    if holds == None {
      ReadShown(c, failed, s.env, s.host);
      ShownConcat(c, s.trace, [failed]);
      FailStopShown(c, i, policyId, s);
    } else if holds == Some(true) {
      var row := Row(i, false, VerdictAllow, policyId, RowOk, true);
      ReadShown(c, row, s.env, s.host);
      ShownConcat(c, s.trace, [row]);
    } else {
      PerformShown(c, i, policyId, s);
    }
  }

  lemma PerformShown<H(!new), E(!new)>(c: Context<H, E>, i: nat, policyId: string, s: Run<H, E>)
    requires i < |c.plan.steps| && c.Valid(s.executed) && AllShown(c, s.trace)
    requires DesiredStateHolds(c.ports, s.env, s.host, c.plan.steps[i].action) == Some(false)
    ensures AllShown(c, ExecuteAllowed(c, i, policyId, s).0.trace)
  {
    hide ExecuteAction, AllShown, FailStop, DesiredState, Answer;
    var action := c.plan.steps[i].action;
    ExecutionAnswers(c.ports, s.env, s.host, action, policyId);
    var did := Answer(c.ports, s.env, s.host, action, policyId);
    var ok, marked := did.Done?, did.Done? && did.marked;
    var effect := Effect(i, policyId, ok, marked);
    var row := Row(i, false, VerdictAllow, policyId, if ok then RowOk else RowFailed, false);
    EffectShown(c, i, policyId, ok, marked, row, s.env, s.host);
    ShownConcat(c, s.trace, [effect, row]);
    if ok {
      assert ExecuteAllowed(c, i, policyId, s).0.trace == s.trace + [effect, row];
    } else {
      assert s.trace + [effect] + [row] == s.trace + [effect, row];
      FailStopShown(c, i, policyId, s.(host := did.host, env := did.env).Log([effect]));
    }
  }

  lemma OtherRowShown<H(!new), E(!new)>(c: Context<H, E>, row: Event)
    requires row.Row? && row.index < |c.plan.steps| && !row.verdict.VerdictAllow?
    ensures AllShown(c, [row])
  {
  }

  lemma ActShown<H(!new), E(!new)>(c: Context<H, E>, i: nat, s: Run<H, E>, g: Gated<E>)
    requires i < |c.plan.steps| && c.Valid(s.executed) && AllShown(c, s.trace) && Quiet(g.events)
    ensures AllShown(c, Act(c, i, s, g).run.trace)
  {
    hide ExecuteAllowed, AllShown, Quiet;
    var s1 := s.(env := g.env).Log(g.events);
    QuietIsShown(c, g.events);
    ShownConcat(c, s.trace, g.events);
    match g.ruling {
      case Refuse(policyId) =>
        var row := Row(i, false, VerdictDeny, policyId, RowDenied, false);
        OtherRowShown(c, row);
        ShownConcat(c, s1.trace, [row]);
      case Pause(policyId) =>
        var row := Row(i, false, VerdictRequiresApproval, policyId, RowAwaiting, false);
        OtherRowShown(c, row);
        ShownConcat(c, s1.trace, [row]);
      case Proceed(policyId, charge) =>
        ExecuteShown(c, i, policyId, s1);
        var s2 := ExecuteAllowed(c, i, policyId, s1).0;
        if charge.Some? {
          var refund := Refund(i, c.Risk(i), c.plan.blastRadius, charge.value);
          assert Quiet([refund]) by { OneRefund(refund); }
          QuietIsShown(c, [refund]);
          ShownConcat(c, s2.trace, [refund]);
        }
    }
  }

  lemma OneRefund(refund: Event)
    requires refund.Refund?
    ensures Quiet([refund])
  {
  }

  lemma {:induction false} RunShown<H(!new), E(!new)>(c: Context<H, E>, i: nat, s: Run<H, E>)
    requires i <= |c.plan.steps| && c.Valid(s.executed) && AllShown(c, s.trace)
    ensures AllShown(c, RunFrom(c, i, s).run.trace)
    decreases |c.plan.steps| - i
  {
    hide Act, Gate, AllShown, Quiet;
    if i < |c.plan.steps| {
      GateIsQuiet(c, i, s.env);
      ActShown(c, i, s, Gate(c, i, s.env));
      if VisitStep(c, i, s).Continue? {
        RunShown(c, i + 1, VisitStep(c, i, s).run);
      }
    }
  }

  /**
   * In every run, an effect is the port's answer to performing that step on a host where the state it
   * aims at was read and did not hold; an action no port takes fails; a rollback is the answer to the step's
   * own rollback; and a row of success or failure follows its effect, or reports a read that found the step done or failed.
   */
  lemma EffectsAreAnswers<H(!new), E(!new)>(c: Context<H, E>, host: H, env: E, before: seq<nat>)
    requires c.Valid(before)
    ensures AllShown(c, RunAll(c, host, env, before).run.trace)
  {
    hide RunFrom;
    RunShown(c, 0, Start(host, env, before));
  }
}
