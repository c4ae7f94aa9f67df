/**
 * What every visited step is told, read off the trace alone: which findings of governor, policy, budget, matrix
 * and escalation end in a denial, a pause or an execution, and what the run then records.
 */
module Verdicts {
  import opened Domain
  import opened Policy
  import opened Control

  // ---------------------------------------------------------------- findings

  /** What the gates found about one step: the governor's answer, the policy's, and the budget's. */
  datatype Findings = Findings(governor: Option<bool>, decided: Option<Decision>, reserve: Option<bool>)

  predicate IsFinding(e: Event) {
    e.Governor? || e.Decided? || e.Reserve?
  }

  predicate IsStepRow(e: Event) {
    e.Row? && !e.undo
  }

  /** The events of step `i` that say what it was told. */
  predicate Rules(e: Event, i: nat) {
    e.index == i && (IsFinding(e) || IsStepRow(e))
  }

  ghost predicate Reserved(t: seq<Event>, i: nat, granted: bool) {
    exists e :: e in t && e.Reserve? && e.index == i && e.granted == granted
  }

  ghost predicate Holds(t: seq<Event>, i: nat, f: Findings) {
    && (forall ok :: Governor(i, ok) in t <==> f.governor == Some(ok))
    && (forall outcome, id :: Decided(i, outcome, id) in t <==> f.decided == Some(Decision(outcome, id)))
    && (forall granted :: Reserved(t, i, granted) <==> f.reserve == Some(granted))
  }

  /** The one row the findings call for. */
  datatype Told = Told(verdict: Verdict, policyId: string)

  function Due<H, E>(c: Context<H, E>, i: nat, f: Findings): Told
    requires i < |c.plan.steps|
  {
    if f.governor == Some(false) then Told(VerdictDeny, "governor")
    else if f.decided.None? then Told(VerdictDeny, "")
    else
      var id := f.decided.value.policyId;
      match f.decided.value.outcome
      case Deny => Told(VerdictDeny, id)
      case RequireApproval => if c.resumed then Told(VerdictAllow, GRANT) else Told(VerdictRequiresApproval, id)
      case Allow =>
        if f.reserve == Some(false) then Told(VerdictRequiresApproval, "budget.exhausted")
        else if !MayExecute(c.autonomy, c.Risk(i)) then Told(VerdictDeny, "autonomy.matrix")
        else if EscalationBounded(c.autonomy) && !EscalationPermits(c.plan, c.registry, i, c.autonomy, c.Risk(i))
        then Told(VerdictRequiresApproval, id)
        else Told(VerdictAllow, id)
  }

  predicate Begins(prefix: string, s: string) {
    |prefix| <= |s| && forall j :: 0 <= j < |prefix| ==> s[j] == prefix[j]
  }

  /** The step's capability begins with one of the governed prefixes. */
  predicate UnderGovernor<H, E>(c: Context<H, E>, i: nat)
    requires i < |c.plan.steps|
  {
    exists k :: 0 <= k < |c.ports.governedPrefixes| && Begins(c.ports.governedPrefixes[k], c.plan.steps[i].action.capability)
  }

  lemma GovernedIff<H, E>(c: Context<H, E>, i: nat)
    requires i < |c.plan.steps|
    ensures c.Governed(i) <==> UnderGovernor(c, i)
  {
    var capability, prefixes := c.plan.steps[i].action.capability, c.ports.governedPrefixes;
    forall k | 0 <= k < |prefixes| ensures prefixes[k] <= capability <==> Begins(prefixes[k], capability) {
    }
  }

  /** Which gates a step is put before: each only after the one before it let the step through. */
  predicate Consulted<H, E>(c: Context<H, E>, i: nat, f: Findings)
    requires i < |c.plan.steps|
  {
    && (f.governor.Some? <==> UnderGovernor(c, i))
    && (f.decided.Some? <==> f.governor != Some(false))
    && (f.reserve.Some? <==>
        f.decided.Some? && f.decided.value.outcome.Allow? && !c.resumed && f.decided.value.policyId != GRANT)
  }

  ghost predicate TellsOnly(t: seq<Event>, i: nat, told: Told) {
    && (exists e :: e in t && TellsRow(e, i, told))
    && (forall e :: e in t && IsStepRow(e) && e.index == i ==> TellsRow(e, i, told))
  }

  predicate TellsRow(e: Event, i: nat, told: Told) {
    IsStepRow(e) && e.index == i && e.verdict == told.verdict && e.policyId == told.policyId
  }

  /** Step `i` was put before its gates and told exactly what their findings call for. */
  ghost predicate Ruled<H, E>(c: Context<H, E>, t: seq<Event>, i: nat)
    requires i < |c.plan.steps|
  {
    exists f :: Holds(t, i, f) && Consulted(c, i, f) && TellsOnly(t, i, Due(c, i, f))
  }

  ghost predicate Unruled(t: seq<Event>, i: nat) {
    forall e :: e in t ==> !Rules(e, i)
  }

  lemma RuledBefore<H, E>(c: Context<H, E>, a: seq<Event>, b: seq<Event>, i: nat)
    requires i < |c.plan.steps| && Ruled(c, a, i) && Unruled(b, i)
    ensures Ruled(c, a + b, i)
  {
    var f :| Holds(a, i, f) && Consulted(c, i, f) && TellsOnly(a, i, Due(c, i, f));
    Extended(a, b, i, f, Due(c, i, f));
    hide Consulted, Due;
  }

  lemma Extended(a: seq<Event>, b: seq<Event>, i: nat, f: Findings, told: Told)
    requires Holds(a, i, f) && TellsOnly(a, i, told) && Unruled(b, i)
    ensures Holds(a + b, i, f) && TellsOnly(a + b, i, told)
  {
    assert forall e :: Rules(e, i) ==> (e in a + b <==> e in a);
    forall granted ensures Reserved(a + b, i, granted) <==> Reserved(a, i, granted) {
      if e :| e in a && e.Reserve? && e.index == i && e.granted == granted {
        assert e in a + b;
      }
    }
    var e :| e in a && TellsRow(e, i, told);
    assert e in a + b;
  }

  lemma RuledAfter<H, E>(c: Context<H, E>, a: seq<Event>, b: seq<Event>, i: nat)
    requires i < |c.plan.steps| && Unruled(a, i) && Ruled(c, b, i)
    ensures Ruled(c, a + b, i)
  {
    var f :| Holds(b, i, f) && Consulted(c, i, f) && TellsOnly(b, i, Due(c, i, f));
    ExtendedBack(a, b, i, f, Due(c, i, f));
    hide Consulted, Due;
  }

  lemma ExtendedBack(a: seq<Event>, b: seq<Event>, i: nat, f: Findings, told: Told)
    requires Holds(b, i, f) && TellsOnly(b, i, told) && Unruled(a, i)
    ensures Holds(a + b, i, f) && TellsOnly(a + b, i, told)
  {
    assert forall e :: Rules(e, i) ==> (e in a + b <==> e in b);
    forall granted ensures Reserved(a + b, i, granted) <==> Reserved(b, i, granted) {
      if e :| e in b && e.Reserve? && e.index == i && e.granted == granted {
        assert e in a + b;
      }
    }
    var e :| e in b && TellsRow(e, i, told);
    assert e in a + b;
  }

  // ---------------------------------------------------------------- the gates find and rule so

  /** What a ruling tells the step. */
  function ToldBy(ruling: Ruling): Told {
    match ruling
    case Refuse(id) => Told(VerdictDeny, id)
    case Pause(id) => Told(VerdictRequiresApproval, id)
    case Proceed(id, _) => Told(VerdictAllow, id)
  }

  ghost predicate GateRules<H, E>(c: Context<H, E>, i: nat, g: Gated<E>, f: Findings)
    requires i < |c.plan.steps|
  {
    && Holds(g.events, i, f) && Consulted(c, i, f) && ToldBy(g.ruling) == Due(c, i, f)
    && forall e :: e in g.events ==> e.index == i && (IsFinding(e) || e.Refund?)
  }

  lemma OneMore(t: seq<Event>, x: Event, i: nat, f: Findings, g: Findings)
    requires Holds(t, i, f) && x.index == i
    requires
      || (x.Refund? && g == f)
      || (x.Governor? && f.governor.None? && g == f.(governor := Some(x.allowed)))
      || (x.Decided? && f.decided.None? && g == f.(decided := Some(Decision(x.outcome, x.policyId))))
      || (x.Reserve? && f.reserve.None? && g == f.(reserve := Some(x.granted)))
    ensures Holds(t + [x], i, g)
  {
    forall granted ensures Reserved(t + [x], i, granted) <==> Reserved(t, i, granted) || (x.Reserve? && x.granted == granted) {
      if e :| e in t && e.Reserve? && e.index == i && e.granted == granted {
        assert e in t + [x];
      }
      if x.Reserve? && x.granted == granted {
        assert x in t + [x];
      }
    }
  }

  lemma AutonomyGateRules<H, E>(c: Context<H, E>, i: nat, policyId: string, env: E, events: seq<Event>, charge: Option<int>, f: Findings)
    requires i < |c.plan.steps| && Holds(events, i, f) && Consulted(c, i, f)
    requires f.decided == Some(Decision(Allow, policyId)) && f.reserve != Some(false)
    requires forall e :: e in events ==> e.index == i && IsFinding(e)
    ensures GateRules(c, i, AutonomyGate(c, i, policyId, env, events, charge), f)
  {
    hide EscalationPermits, MayExecute, Holds;
    if charge.Some? {
      OneMore(events, Refund(i, c.Risk(i), c.plan.blastRadius, charge.value), i, f, f);
    }
  }

  lemma BudgetGateRules<H, E>(c: Context<H, E>, i: nat, policyId: string, env: E, events: seq<Event>, f: Findings) returns (g: Findings)
    requires i < |c.plan.steps| && Holds(events, i, f) && f.reserve.None?
    requires (f.governor.Some? <==> UnderGovernor(c, i)) && f.governor != Some(false)
    requires f.decided == Some(Decision(Allow, policyId))
    requires forall e :: e in events ==> e.index == i && IsFinding(e)
    ensures GateRules(c, i, BudgetGate(c, i, policyId, env, events), g)
  {
    hide AutonomyGate, EscalationPermits, MayExecute, Holds;
    g := f;
    if c.resumed || policyId == GRANT {
      AutonomyGateRules(c, i, policyId, env, events, None, g);
    } else {
      var at := c.ports.clock(env);
      var (granted, env1) := c.ports.reserve(env, c.Risk(i), c.plan.blastRadius, at);
      var reserve := Reserve(i, c.Risk(i), c.plan.blastRadius, at, granted);
      g := f.(reserve := Some(granted));
      OneMore(events, reserve, i, f, g);
      if granted {
        AutonomyGateRules(c, i, policyId, env1, events + [reserve], Some(at), g);
      }
    }
  }

  lemma PolicyGateRules<H, E>(c: Context<H, E>, i: nat, env: E, events: seq<Event>, f: Findings) returns (g: Findings)
    requires i < |c.plan.steps| && Holds(events, i, f) && f.reserve.None? && f.decided.None?
    requires (f.governor.Some? <==> UnderGovernor(c, i)) && f.governor != Some(false)
    requires forall e :: e in events ==> e.index == i && IsFinding(e)
    ensures GateRules(c, i, PolicyGate(c, i, env, events), g)
  {
    hide BudgetGate, EscalationPermits, MayExecute, Holds;
    var capability := c.Capability(i);
    var needsApproval := capability in c.registry ==> c.registry[capability].requiresApproval;
    var (d, env1) := c.ports.decide(env, c.plan.steps[i].action, c.Risk(i), c.plan.blastRadius, needsApproval);
    var decided := Decided(i, d.outcome, d.policyId);
    g := f.(decided := Some(d));
    OneMore(events, decided, i, f, g);
    if d.outcome.Allow? {
      g := BudgetGateRules(c, i, d.policyId, env1, events + [decided], g);
    }
  }

  lemma NothingHolds(i: nat)
    ensures Holds([], i, Findings(None, None, None))
  {
  }

  lemma GateFinds<H, E>(c: Context<H, E>, i: nat, env: E) returns (f: Findings)
    requires i < |c.plan.steps|
    ensures GateRules(c, i, Gate(c, i, env), f)
  {
    hide PolicyGate, EscalationPermits, MayExecute, Holds, UnderGovernor;
    NothingHolds(i);
    GovernedIff(c, i);
    f := Findings(None, None, None);
    if c.Governed(i) {
      var (allowed, env1) := c.ports.govern(env, c.plan.steps[i].action, i);
      OneMore([], Governor(i, allowed), i, f, f.(governor := Some(allowed)));
      assert [] + [Governor(i, allowed)] == [Governor(i, allowed)];
      f := f.(governor := Some(allowed));
      if allowed {
        f := PolicyGateRules(c, i, env1, [Governor(i, true)], f);
      }
    } else {
      f := PolicyGateRules(c, i, env, [], f);
    }
  }

  // ---------------------------------------------------------------- what a run records

  /** The steps denied, in order of their rows. */
  function Denials(t: seq<Event>): seq<nat> {
    if t == [] then []
    else
      var n := |t| - 1;
      Denials(t[..n]) + if IsStepRow(t[n]) && t[n].verdict.VerdictDeny? then [t[n].index] else []
  }

  datatype Outcome = Outcome(index: nat, ok: bool)

  /** The steps let through, and how each ended, in order of their rows. */
  function Outcomes(t: seq<Event>): seq<Outcome> {
    if t == [] then []
    else
      var n := |t| - 1;
      Outcomes(t[..n]) + if IsStepRow(t[n]) && t[n].verdict.VerdictAllow? then [Outcome(t[n].index, t[n].result.RowOk?)] else []
  }

  function Results(executions: seq<Execution>): (r: seq<Outcome>)
    ensures |r| == |executions|
    ensures forall k :: 0 <= k < |r| ==> r[k] == Outcome(executions[k].index, executions[k].completed)
  {
    seq(|executions|, k requires 0 <= k < |executions| => Outcome(executions[k].index, executions[k].completed))
  }

  /** A row's result fits its verdict. */
  predicate RowFits(e: Event) {
    e.Row? ==>
      if e.undo then e.verdict.VerdictAllow? && e.policyId == ROLLBACK && (e.result.RowRolledBack? || e.result.RowFailed?) && !e.noop
      else
        && (e.verdict.VerdictDeny? <==> e.result.RowDenied?)
        && (e.verdict.VerdictRequiresApproval? <==> e.result.RowAwaiting?)
        && (e.verdict.VerdictAllow? ==> e.result.RowOk? || e.result.RowFailed?)
        && (e.noop ==> e.result.RowOk?)
  }

  predicate RowsFit(t: seq<Event>) {
    forall k :: 0 <= k < |t| ==> RowFits(t[k])
  }

  predicate Awaiting(e: Event) {
    IsStepRow(e) && e.verdict.VerdictRequiresApproval?
  }

  predicate NoneAwaiting(t: seq<Event>) {
    forall k :: 0 <= k < |t| ==> !Awaiting(t[k])
  }

  predicate Recorded<H, E>(s: Run<H, E>) {
    s.denied == Denials(s.trace) && Results(s.executions) == Outcomes(s.trace) && RowsFit(s.trace)
  }

  lemma RecordsOne(t: seq<Event>, e: Event)
    ensures Denials(t + [e]) == Denials(t) + if IsStepRow(e) && e.verdict.VerdictDeny? then [e.index] else []
    ensures Outcomes(t + [e]) ==
            Outcomes(t) + if IsStepRow(e) && e.verdict.VerdictAllow? then [Outcome(e.index, e.result.RowOk?)] else []
    ensures RowsFit(t) && RowFits(e) ==> RowsFit(t + [e])
    ensures NoneAwaiting(t) && !Awaiting(e) ==> NoneAwaiting(t + [e])
  {
    assert (t + [e])[..|t|] == t;
  }

  /** Findings and refunds record nothing. */
  lemma {:induction false} RecordsNothing(t: seq<Event>, u: seq<Event>)
    requires forall k :: 0 <= k < |u| ==> !IsStepRow(u[k]) && RowFits(u[k])
    ensures Denials(t + u) == Denials(t) && Outcomes(t + u) == Outcomes(t)
    ensures RowsFit(t) ==> RowsFit(t + u)
    ensures NoneAwaiting(t) ==> NoneAwaiting(t + u)
  {
    if u == [] {
      assert t + u == t;
    } else {
      var n := |u| - 1;
      RecordsNothing(t, u[..n]);
      RecordsOne(t + u[..n], u[n]);
      assert t + u == t + u[..n] + [u[n]];
    }
  }

  predicate OnlyUndoes(u: seq<Event>) {
    && (forall k :: 0 <= k < |u| ==> (u[k].Undo? || (u[k].Row? && u[k].undo)) && RowFits(u[k]))
    && UndoRowsAgree(u)
  }

  /** Every rollback's row follows it and says whether it succeeded. */
  predicate UndoRowsAgree(t: seq<Event>) {
    forall k :: 0 <= k < |t| ==> UndoRowAgrees(t, k)
  }

  predicate UndoRowAgrees(t: seq<Event>, k: nat)
    requires k < |t|
  {
    t[k].Row? && t[k].undo ==> k > 0 && t[k - 1] == Undo(t[k].index, t[k].result.RowRolledBack?)
  }

  lemma NoUndoRows(t: seq<Event>)
    requires forall k :: 0 <= k < |t| ==> !(t[k].Row? && t[k].undo)
    ensures UndoRowsAgree(t)
  {
  }

  lemma AgreeConcat(a: seq<Event>, b: seq<Event>)
    requires UndoRowsAgree(a) && UndoRowsAgree(b)
    ensures UndoRowsAgree(a + b)
  {
    forall k | 0 <= k < |a + b| ensures UndoRowAgrees(a + b, k) {
      if k < |a| {
        assert UndoRowAgrees(a, k);
      } else {
        assert UndoRowAgrees(b, k - |a|);
      }
    }
  }

  lemma {:induction false} UndoAdds<H, E>(c: Context<H, E>, s: Run<H, E>, n: nat) returns (u: seq<Event>)
    requires n <= |s.executed| && c.Valid(s.executed)
    ensures UndoFrom(c, s, n).trace == s.trace + u && OnlyUndoes(u)
    decreases n
  {
    hide ExecuteAction;
    u := [];
    assert s.trace + [] == s.trace;
    if n > 0 && c.plan.steps[s.executed[n - 1]].rollback.Some? {
      var (s1, ok) := TryUndo(c, s, s.executed[n - 1]);
      u := s1.trace[|s.trace|..];
      assert s1.trace == s.trace + u;
      if ok {
        var more := UndoAdds(c, s1, n - 1);
        AgreeConcat(u, more);
        assert s.trace + u + more == s.trace + (u + more);
        u := u + more;
      }
    }
  }

  /** What executing a step that was let through adds: its effect if any, its row, and the undoing after a failure. */
  predicate Executes<H, E>(
    i: nat, policyId: string, s: Run<H, E>, r: Run<H, E>, terminal: bool, effect: seq<Event>, row: Event, undone: seq<Event>)
  {
    && r.trace == s.trace + effect + [row] + undone
    && (forall k :: 0 <= k < |effect| ==> effect[k].Effect?)
    && OnlyUndoes(undone)
    && TellsRow(row, i, Told(VerdictAllow, policyId)) && RowFits(row)
    && r.denied == s.denied
    && Results(r.executions) == Results(s.executions) + [Outcome(i, row.result.RowOk?)]
    && (row.result.RowOk? <==> !terminal)
  }

  lemma FailStopExecutes<H, E>(c: Context<H, E>, i: nat, policyId: string, s: Run<H, E>, effect: seq<Event>, s0: Run<H, E>)
    returns (row: Event, undone: seq<Event>)
    requires c.Valid(s.executed) && s.trace == s0.trace + effect && (forall k :: 0 <= k < |effect| ==> effect[k].Effect?)
    requires s.denied == s0.denied && s.executions == s0.executions
    ensures Executes(i, policyId, s0, FailStop(c, i, policyId, s), true, effect, row, undone)
  {
    hide UndoFrom;
    row := Row(i, false, VerdictAllow, policyId, RowFailed, false);
    var s1 := s.(executions := s.executions + [Execution(i, false, false)], status := PlanStatus.Failed).Log([row]);
    undone := [];
    assert s1.trace + [] == s1.trace;
    if s1.executed != [] {
      undone := UndoAdds(c, s1.(status := RollingBack), |s1.executed|);
    }
    assert Results(s1.executions) == Results(s0.executions) + [Outcome(i, false)];
  }

  lemma ExecuteRules<H, E>(c: Context<H, E>, i: nat, policyId: string, s: Run<H, E>)
    returns (effect: seq<Event>, row: Event, undone: seq<Event>)
    requires i < |c.plan.steps| && c.Valid(s.executed)
    ensures var (r, terminal) := ExecuteAllowed(c, i, policyId, s); Executes(i, policyId, s, r, terminal, effect, row, undone)
  {
    hide FailStop, ExecuteAction;
    var action := c.plan.steps[i].action;
    var holds := DesiredStateHolds(c.ports, s.env, s.host, action);
    var r := ExecuteAllowed(c, i, policyId, s).0;
    effect, undone := [], [];
    if holds == None {
      assert s.trace + [] == s.trace;
      row, undone := FailStopExecutes(c, i, policyId, s, [], s);
    } else if holds == Some(true) {
      row := Row(i, false, VerdictAllow, policyId, RowOk, true);
      assert r.trace == s.trace + [] + [row] + [];
      assert Results(r.executions) == Results(s.executions) + [Outcome(i, true)];
    } else {
      var did := ExecuteAction(c.ports, s.env, s.host, action, policyId);
      if did.Done? {
        effect := [Effect(i, policyId, true, did.marked)];
        row := Row(i, false, VerdictAllow, policyId, RowOk, false);
        assert r.trace == s.trace + effect + [row] + [];
        assert Results(r.executions) == Results(s.executions) + [Outcome(i, true)];
      } else {
        effect := [Effect(i, policyId, false, false)];
        row, undone := FailStopExecutes(c, i, policyId, s.(host := did.host, env := did.env).Log(effect), effect, s);
      }
    }
  }

  // ---------------------------------------------------------------- one step

  /** What visiting step `i` adds to a run. */
  ghost predicate Visits<H, E>(c: Context<H, E>, i: nat, s: Run<H, E>, p: Progress<H, E>, added: seq<Event>)
    requires i < |c.plan.steps|
  {
    && p.run.trace == s.trace + added
    && Ruled(c, added, i) && (forall j: nat :: j != i ==> Unruled(added, j))
    && Books(s, p, i)
  }

  ghost predicate Books<H, E>(s: Run<H, E>, p: Progress<H, E>, i: nat) {
    && (Recorded(s) ==> Recorded(p.run))
    && (NoneAwaiting(s.trace) ==> AwaitsOnlyAtEnd(p, i))
  }

  /** An awaiting row is the last event of a run that pauses, and of no other. */
  predicate AwaitsOnlyAtEnd<H, E>(p: Progress<H, E>, i: nat) {
    var t := p.run.trace;
    if p.Paused? then t != [] && Awaiting(t[|t| - 1]) && t[|t| - 1].index == i && NoneAwaiting(t[..|t| - 1])
    else NoneAwaiting(t)
  }

  lemma ChunkRules<H, E>(c: Context<H, E>, i: nat, g: Gated<E>, f: Findings, rest: seq<Event>, row: Event)
    requires i < |c.plan.steps| && GateRules(c, i, g, f)
    requires row in rest && TellsRow(row, i, ToldBy(g.ruling))
    requires forall e :: e in rest ==> !IsFinding(e) && (IsStepRow(e) ==> e == row)
    ensures Ruled(c, g.events + rest, i) && forall j: nat :: j != i ==> Unruled(g.events + rest, j)
  {
    var added := g.events + rest;
    assert forall e :: IsFinding(e) ==> (e in added <==> e in g.events);
    forall granted ensures Reserved(added, i, granted) <==> Reserved(g.events, i, granted) {
      if e :| e in g.events && e.Reserve? && e.index == i && e.granted == granted {
        assert e in added;
      }
    }
    assert Holds(added, i, f);
    assert row in added;
    assert TellsOnly(added, i, Due(c, i, f));
  }

  lemma GateRecordsNothing<H, E>(c: Context<H, E>, i: nat, g: Gated<E>, f: Findings, t: seq<Event>)
    requires i < |c.plan.steps| && GateRules(c, i, g, f)
    ensures Denials(t + g.events) == Denials(t) && Outcomes(t + g.events) == Outcomes(t)
    ensures RowsFit(t) ==> RowsFit(t + g.events)
    ensures NoneAwaiting(t) ==> NoneAwaiting(t + g.events)
  {
    hide Holds, Consulted, Due, Denials, Outcomes, RowsFit, NoneAwaiting;
    forall k | 0 <= k < |g.events| ensures !IsStepRow(g.events[k]) && RowFits(g.events[k]) {
      assert g.events[k] in g.events;
    }
    RecordsNothing(t, g.events);
  }

  lemma StopBooks<H, E>(c: Context<H, E>, i: nat, s: Run<H, E>, g: Gated<E>, f: Findings)
    requires i < |c.plan.steps| && c.Valid(s.executed) && GateRules(c, i, g, f) && !g.ruling.Proceed?
    ensures Books(s, Act(c, i, s, g), i)
  {
    hide GateRules, Denials, Outcomes, RowsFit, NoneAwaiting;
    var t := s.trace + g.events;
    GateRecordsNothing(c, i, g, f, s.trace);
    var p := Act(c, i, s, g);
    var row := p.run.trace[|t|];
    assert p.run.trace == t + [row];
    RecordsOne(t, row);
    assert (t + [row])[..|t|] == t && (t + [row])[|t|] == row;
  }

  lemma ProceedBooks<H, E>(
    c: Context<H, E>, i: nat, s: Run<H, E>, g: Gated<E>, f: Findings, effect: seq<Event>, row: Event, undone: seq<Event>, refund: seq<Event>)
    requires i < |c.plan.steps| && c.Valid(s.executed) && GateRules(c, i, g, f) && g.ruling.Proceed?
    requires var s1 := s.(env := g.env).Log(g.events);
             var (r, terminal) := ExecuteAllowed(c, i, g.ruling.policyId, s1);
             && Executes(i, g.ruling.policyId, s1, r, terminal, effect, row, undone)
             && Act(c, i, s, g).run.trace == r.trace + refund
             && forall k :: 0 <= k < |refund| ==> refund[k].Refund?
    ensures Books(s, Act(c, i, s, g), i)
  {
    hide GateRules, Denials, Outcomes, RowsFit, NoneAwaiting, ExecuteAllowed;
    var t := s.trace + g.events;
    GateRecordsNothing(c, i, g, f, s.trace);
    RecordsNothing(t, effect);
    RecordsOne(t + effect, row);
    RecordsNothing(t + effect + [row], undone);
    RecordsNothing(t + effect + [row] + undone, refund);
  }

  lemma ActTrace<H, E>(c: Context<H, E>, i: nat, s: Run<H, E>, g: Gated<E>) returns (refund: seq<Event>)
    requires i < |c.plan.steps| && c.Valid(s.executed) && g.ruling.Proceed?
    ensures var r := ExecuteAllowed(c, i, g.ruling.policyId, s.(env := g.env).Log(g.events)).0;
            Act(c, i, s, g).run.trace == r.trace + refund
    ensures forall k :: 0 <= k < |refund| ==> refund[k].Refund?
  {
    hide ExecuteAllowed;
    var r := ExecuteAllowed(c, i, g.ruling.policyId, s.(env := g.env).Log(g.events)).0;
    refund := Act(c, i, s, g).run.trace[|r.trace|..];
  }

  lemma ProceedRules<H, E>(c: Context<H, E>, i: nat, s: Run<H, E>, g: Gated<E>, f: Findings) returns (added: seq<Event>)
    requires i < |c.plan.steps| && c.Valid(s.executed) && GateRules(c, i, g, f) && g.ruling.Proceed?
    ensures Visits(c, i, s, Act(c, i, s, g), added)
  {
    hide ExecuteAllowed, GateRules, Ruled, Books, Act, Unruled, OnlyUndoes, RowFits;
    var effect, row, undone := ExecuteRules(c, i, g.ruling.policyId, s.(env := g.env).Log(g.events));
    var refund := ActTrace(c, i, s, g);
    ProceedBooks(c, i, s, g, f, effect, row, undone, refund);
    var rest := effect + [row] + undone + refund;
    added := g.events + rest;
    Regroup(s.trace, g.events, effect, [row], undone, refund);
    RestRules(effect, row, undone, refund, i, ToldBy(g.ruling));
    ChunkRules(c, i, g, f, rest, row);
  }

  lemma Regroup(a: seq<Event>, b: seq<Event>, c: seq<Event>, d: seq<Event>, e: seq<Event>, f: seq<Event>)
    ensures a + b + c + d + e + f == a + (b + (c + d + e + f))
  {
  }

  lemma RestRules(effect: seq<Event>, row: Event, undone: seq<Event>, refund: seq<Event>, i: nat, told: Told)
    requires (forall k :: 0 <= k < |effect| ==> effect[k].Effect?) && OnlyUndoes(undone)
    requires TellsRow(row, i, told) && forall k :: 0 <= k < |refund| ==> refund[k].Refund?
    ensures var rest := effect + [row] + undone + refund;
            row in rest && forall e :: e in rest ==> !IsFinding(e) && (IsStepRow(e) ==> e == row)
  {
    var rest := effect + [row] + undone + refund;
    assert rest[|effect|] == row;
  }

  lemma VisitRules<H, E>(c: Context<H, E>, i: nat, s: Run<H, E>) returns (added: seq<Event>)
    requires i < |c.plan.steps| && c.Valid(s.executed)
    ensures Visits(c, i, s, Act(c, i, s, Gate(c, i, s.env)), added)
  {
    hide Gate, ExecuteAllowed, Ruled, Books, GateRules;
    var g := Gate(c, i, s.env);
    var f := GateFinds(c, i, s.env);
    if g.ruling.Proceed? {
      added := ProceedRules(c, i, s, g, f);
    } else {
      var row := Act(c, i, s, g).run.trace[|s.trace + g.events|];
      StopBooks(c, i, s, g, f);
      added := g.events + [row];
      ChunkRules(c, i, g, f, [row], row);
      assert Act(c, i, s, g).run.trace == s.trace + added;
    }
  }

  // ---------------------------------------------------------------- whole runs

  /** The first `m` steps, but for those executed before a pause, were each told what their findings call for; no other was told anything. */
  ghost predicate AllTold<H, E>(c: Context<H, E>, before: seq<nat>, m: nat, t: seq<Event>) {
    forall j: nat :: j < |c.plan.steps| ==>
      if j < m && !(c.resumed && j in before) then Ruled(c, t, j) else Unruled(t, j)
  }

  lemma ToldOneMore<H, E>(c: Context<H, E>, before: seq<nat>, i: nat, t: seq<Event>, added: seq<Event>)
    requires i < |c.plan.steps| && AllTold(c, before, i, t) && !(c.resumed && i in before)
    requires Ruled(c, added, i) && forall j: nat :: j != i ==> Unruled(added, j)
    ensures AllTold(c, before, i + 1, t + added)
  {
    hide Ruled;
    forall j: nat | j < |c.plan.steps|
      ensures if j < i + 1 && !(c.resumed && j in before) then Ruled(c, t + added, j) else Unruled(t + added, j)
    {
      if j == i {
        RuledAfter(c, t, added, i);
      } else if j < i && !(c.resumed && j in before) {
        RuledBefore(c, t, added, j);
      } else {
        UnruledConcat(t, added, j);
      }
    }
  }

  lemma UnruledConcat(a: seq<Event>, b: seq<Event>, i: nat)
    requires Unruled(a, i) && Unruled(b, i)
    ensures Unruled(a + b, i)
  {
  }

  /** A run in progress before step `i`. */
  ghost predicate Ongoing<H, E>(c: Context<H, E>, before: seq<nat>, i: nat, s: Run<H, E>) {
    && i <= |c.plan.steps| && c.Valid(s.executed)
    && (i in s.executed <==> i in before)
    && (forall x <- s.executed :: x in before || x < i)
    && (forall x <- before :: x in s.executed)
    && AllTold(c, before, i, s.trace) && Recorded(s) && NoneAwaiting(s.trace)
    && !(s.status in {Completed, Denied})
  }

  /** What a run that has ended, paused or finished, shows of the first `m` steps. */
  ghost predicate EndsTold<H, E>(c: Context<H, E>, before: seq<nat>, m: nat, p: Progress<H, E>) {
    && m <= |c.plan.steps|
    && AllTold(c, before, m, p.run.trace) && Recorded(p.run)
    && (p.Paused? ==> m > 0 && AwaitsOnlyAtEnd(p, m - 1))
    && (!p.Paused? ==> NoneAwaiting(p.run.trace))
    && (p.run.status in {Completed, Denied} ==> m == |c.plan.steps| && (p.run.status.Denied? <==> Outcomes(p.run.trace) == []))
  }

  lemma ActStatus<H, E>(c: Context<H, E>, i: nat, s: Run<H, E>, g: Gated<E>)
    requires i < |c.plan.steps| && c.Valid(s.executed) && !(s.status in {Completed, Denied})
    ensures !(Act(c, i, s, g).run.status in {Completed, Denied})
  {
  }

  lemma {:induction false} RunTells<H, E>(c: Context<H, E>, before: seq<nat>, i: nat, s: Run<H, E>) returns (m: nat)
    requires Ongoing(c, before, i, s)
    ensures EndsTold(c, before, m, RunFrom(c, i, s))
    decreases |c.plan.steps| - i
  {
    hide Act, Gate, AllTold, Recorded, NoneAwaiting, Visits;
    m := i;
    if i == |c.plan.steps| {
      assert s.executions == [] <==> Outcomes(s.trace) == [] by { RecordedOutcomes(s); }
      RecordedStatus(s, if s.executions == [] then Denied else Completed);
    } else if c.resumed && i in s.executed {
      SkipTold(c, before, i, s.trace);
      m := RunTells(c, before, i + 1, s);
    } else {
      var p := Act(c, i, s, Gate(c, i, s.env));
      var added := VisitRules(c, i, s);
      VisitAdvances(c, before, i, s, p, added);
      ActStatus(c, i, s, Gate(c, i, s.env));
      m := i + 1;
      if p.Continue? {
        m := RunTells(c, before, i + 1, p.run);
      }
    }
  }

  lemma RecordedOutcomes<H, E>(s: Run<H, E>)
    requires Recorded(s)
    ensures s.executions == [] <==> Outcomes(s.trace) == []
  {
  }

  lemma RecordedStatus<H, E>(s: Run<H, E>, status: PlanStatus)
    requires Recorded(s)
    ensures Recorded(s.(status := status))
  {
  }

  lemma SkipTold<H, E>(c: Context<H, E>, before: seq<nat>, i: nat, t: seq<Event>)
    requires AllTold(c, before, i, t) && c.resumed && i in before
    ensures AllTold(c, before, i + 1, t)
  {
    hide Ruled, Unruled;
  }

  lemma VisitAdvances<H, E>(c: Context<H, E>, before: seq<nat>, i: nat, s: Run<H, E>, p: Progress<H, E>, added: seq<Event>)
    requires Ongoing(c, before, i, s) && i < |c.plan.steps| && !(c.resumed && i in s.executed)
    requires Visits(c, i, s, p, added)
    ensures AllTold(c, before, i + 1, p.run.trace) && Recorded(p.run) && AwaitsOnlyAtEnd(p, i)
  {
    hide AllTold, Recorded, NoneAwaiting, Ruled, Unruled, AwaitsOnlyAtEnd;
    ToldOneMore(c, before, i, s.trace, added);
  }

  lemma NothingTold<H, E>(c: Context<H, E>, before: seq<nat>)
    ensures AllTold(c, before, 0, [])
  {
  }

  /**
   * Every run, first or resumed, whatever its ports answer: each visited step is put before its gates in order and
   * told exactly what their findings call for; the denials and executions are recorded in order; an awaiting row is
   * the last event of a paused run and of no other; and a run off the end is Denied exactly when it let nothing through.
   */
  lemma EveryStepIsTold<H, E>(c: Context<H, E>, host: H, env: E, before: seq<nat>) returns (m: nat)
    requires c.Valid(before)
    ensures EndsTold(c, before, m, RunAll(c, host, env, before))
  {
    NothingTold(c, before);
    m := RunTells(c, before, 0, Start(host, env, before));
  }

  // ---------------------------------------------------------------- what an operator can rely on

  /** The run has paused, and its last event is the row that says for what. */
  predicate PausedFor<H, E>(p: Progress<H, E>, i: nat, policyId: string) {
    && p.Paused? && p.run.trace != []
    && p.run.trace[|p.run.trace| - 1] == Row(i, false, VerdictRequiresApproval, policyId, RowAwaiting, false)
  }

  /** A first run that policy answers with "requires approval" pauses there, on that answer. */
  lemma ApprovalPauses<H, E>(c: Context<H, E>, host: H, env: E, i: nat, policyId: string)
    requires !c.resumed && Decided(i, RequireApproval, policyId) in RunAll(c, host, env, []).run.trace
    requires i < |c.plan.steps|
    ensures PausedFor(RunAll(c, host, env, []), i, policyId)
  {
    hide RunAll;
    var m := EveryStepIsTold(c, host, env, []);
    PausesOn(c, [], m, RunAll(c, host, env, []), i, policyId);
  }

  /** A first run whose budget is exhausted pauses there. */
  lemma ExhaustionPauses<H, E>(c: Context<H, E>, host: H, env: E, i: nat)
    requires i < |c.plan.steps| && Reserved(RunAll(c, host, env, []).run.trace, i, false)
    ensures PausedFor(RunAll(c, host, env, []), i, "budget.exhausted")
  {
    hide RunAll;
    var m := EveryStepIsTold(c, host, env, []);
    PausesOn(c, [], m, RunAll(c, host, env, []), i, "budget.exhausted");
  }

  /** So does an allowed step, whether first or resumed, that the matrix admits and escalation stops. */
  lemma EscalationPauses<H, E>(c: Context<H, E>, host: H, env: E, before: seq<nat>, i: nat, policyId: string)
    requires c.Valid(before) && i < |c.plan.steps|
    requires var t := RunAll(c, host, env, before).run.trace; Decided(i, Allow, policyId) in t && !Reserved(t, i, false)
    requires MayExecute(c.autonomy, c.Risk(i)) && EscalationBounded(c.autonomy)
    requires !EscalationPermits(c.plan, c.registry, i, c.autonomy, c.Risk(i))
    ensures PausedFor(RunAll(c, host, env, before), i, policyId)
  {
    hide RunAll;
    var m := EveryStepIsTold(c, host, env, before);
    PausesOn(c, before, m, RunAll(c, host, env, before), i, policyId);
  }

  lemma PausesOn<H, E>(c: Context<H, E>, before: seq<nat>, m: nat, p: Progress<H, E>, i: nat, policyId: string)
    requires EndsTold(c, before, m, p) && i < |c.plan.steps| && !p.Continue?
    requires
      || (!c.resumed && Decided(i, RequireApproval, policyId) in p.run.trace)
      || (policyId == "budget.exhausted" && Reserved(p.run.trace, i, false))
      || (&& Decided(i, Allow, policyId) in p.run.trace && !Reserved(p.run.trace, i, false)
          && MayExecute(c.autonomy, c.Risk(i)) && c.Escalates(i))
    ensures PausedFor(p, i, policyId)
  {
    hide EscalationPermits, MayExecute;
    var t := p.run.trace;
    assert Ruled(c, t, i);
    var f :| Holds(t, i, f) && Consulted(c, i, f) && TellsOnly(t, i, Due(c, i, f));
    assert f.reserve == Some(false) <==> Reserved(t, i, false);
    assert Due(c, i, f) == Told(VerdictRequiresApproval, policyId);
    var row :| row in t && TellsRow(row, i, Told(VerdictRequiresApproval, policyId));
    var k :| 0 <= k < |t| && t[k] == row;
    assert Awaiting(t[k]) && RowFits(t[k]);
  }

  /**
   * A step is denied exactly on the governor's refusal, the policy's denial, or an allowance the budget did not stop
   * and the matrix does not admit, each named in its row.
   */
  lemma DeniedIff<H, E>(c: Context<H, E>, host: H, env: E, before: seq<nat>, i: nat)
    requires c.Valid(before) && i < |c.plan.steps|
    ensures var t := RunAll(c, host, env, before).run.trace;
            forall policyId ::
              (exists e :: e in t && TellsRow(e, i, Told(VerdictDeny, policyId))) <==>
              || (policyId == "governor" && Governor(i, false) in t)
              || Decided(i, Deny, policyId) in t
              || (&& policyId == "autonomy.matrix" && !MayExecute(c.autonomy, c.Risk(i))
                  && (exists id :: Decided(i, Allow, id) in t) && !Reserved(t, i, false))
  {
    hide RunAll, EscalationPermits, MayExecute;
    var m := EveryStepIsTold(c, host, env, before);
    var t := RunAll(c, host, env, before).run.trace;
    if Ruled(c, t, i) {
      var f :| Holds(t, i, f) && Consulted(c, i, f) && TellsOnly(t, i, Due(c, i, f));
      assert f.reserve == Some(false) <==> Reserved(t, i, false);
      if f.decided.Some? {
        assert Decided(i, f.decided.value.outcome, f.decided.value.policyId) in t;
      }
      forall policyId
        ensures (exists e :: e in t && TellsRow(e, i, Told(VerdictDeny, policyId))) <==> Due(c, i, f) == Told(VerdictDeny, policyId)
      {
      }
    } else {
      assert Unruled(t, i);
    }
  }

  /** And it is let through exactly on an allowance that nothing after it stops, or, resumed, on the grant where approval is required. */
  lemma LetThroughIff<H, E>(c: Context<H, E>, host: H, env: E, before: seq<nat>, i: nat)
    requires c.Valid(before) && i < |c.plan.steps|
    ensures var t := RunAll(c, host, env, before).run.trace;
            forall policyId ::
              (exists e :: e in t && TellsRow(e, i, Told(VerdictAllow, policyId))) <==>
              || (c.resumed && policyId == GRANT && exists id :: Decided(i, RequireApproval, id) in t)
              || (&& Decided(i, Allow, policyId) in t && !Reserved(t, i, false) && MayExecute(c.autonomy, c.Risk(i))
                  && (EscalationBounded(c.autonomy) ==> EscalationPermits(c.plan, c.registry, i, c.autonomy, c.Risk(i))))
  {
    hide RunAll, EscalationPermits, MayExecute;
    var m := EveryStepIsTold(c, host, env, before);
    var t := RunAll(c, host, env, before).run.trace;
    if Ruled(c, t, i) {
      var f :| Holds(t, i, f) && Consulted(c, i, f) && TellsOnly(t, i, Due(c, i, f));
      assert f.reserve == Some(false) <==> Reserved(t, i, false);
      if f.decided.Some? {
        assert Decided(i, f.decided.value.outcome, f.decided.value.policyId) in t;
      }
      forall policyId
        ensures (exists e :: e in t && TellsRow(e, i, Told(VerdictAllow, policyId))) <==> Due(c, i, f) == Told(VerdictAllow, policyId)
      {
      }
    } else {
      assert Unruled(t, i);
    }
  }

  // ---------------------------------------------------------------- the findings are the ports' answers

  /** An action needs approval unless it is registered as one that does not. */
  predicate NeedsApproval(registry: Registry, capability: string) {
    !(capability in registry && !registry[capability].requiresApproval)
  }

  /** Each finding is what its port answered, asked about the step's own action, governed risk and the plan's scope. */
  ghost predicate Answered<H, E(!new)>(c: Context<H, E>, e: Event) {
    match e
    case Governor(i, ok) => i < |c.plan.steps| && exists env :: c.ports.govern(env, c.plan.steps[i].action, i).0 == ok
    case Decided(i, outcome, id) =>
      && i < |c.plan.steps|
      && exists env ::
           c.ports.decide(env, c.plan.steps[i].action, c.Risk(i), c.plan.blastRadius,
                          NeedsApproval(c.registry, c.plan.steps[i].action.capability)).0 == Decision(outcome, id)
    case Reserve(i, risk, scope, at, granted) =>
      && i < |c.plan.steps| && risk == c.Risk(i) && scope == c.plan.blastRadius
      && exists env :: c.ports.clock(env) == at && c.ports.reserve(env, risk, scope, at).0 == granted
    case _ => true
  }

  ghost predicate AllAnswered<H, E(!new)>(c: Context<H, E>, t: seq<Event>) {
    (forall k :: 0 <= k < |t| ==> Answered(c, t[k])) && UndoRowsAgree(t)
  }

  lemma AnsweredConcat<H, E(!new)>(c: Context<H, E>, a: seq<Event>, b: seq<Event>)
    requires AllAnswered(c, a) && AllAnswered(c, b)
    ensures AllAnswered(c, a + b)
  {
    hide Answered, UndoRowsAgree;
    AgreeConcat(a, b);
  }

  lemma BudgetGateAnswers<H, E(!new)>(c: Context<H, E>, i: nat, policyId: string, env: E, events: seq<Event>)
    requires i < |c.plan.steps| && AllAnswered(c, events)
    ensures AllAnswered(c, BudgetGate(c, i, policyId, env, events).events)
  {
    hide EscalationPermits, MayExecute;
    if !(c.resumed || policyId == GRANT) {
      var at := c.ports.clock(env);
      var granted := c.ports.reserve(env, c.Risk(i), c.plan.blastRadius, at).0;
      assert Answered(c, Reserve(i, c.Risk(i), c.plan.blastRadius, at, granted));
      var reserve, refund := Reserve(i, c.Risk(i), c.plan.blastRadius, at, granted), Refund(i, c.Risk(i), c.plan.blastRadius, at);
      AnsweredConcat(c, events, [reserve]);
      AnsweredConcat(c, events + [reserve], [refund]);
    }
  }

  lemma PolicyGateAnswers<H, E(!new)>(c: Context<H, E>, i: nat, env: E, events: seq<Event>)
    requires i < |c.plan.steps| && AllAnswered(c, events)
    ensures AllAnswered(c, PolicyGate(c, i, env, events).events)
  {
    hide BudgetGate;
    var capability := c.Capability(i);
    var needsApproval := capability in c.registry ==> c.registry[capability].requiresApproval;
    var (d, env1) := c.ports.decide(env, c.plan.steps[i].action, c.Risk(i), c.plan.blastRadius, needsApproval);
    assert needsApproval == NeedsApproval(c.registry, capability);
    assert Answered(c, Decided(i, d.outcome, d.policyId));
    hide Answered;
    AnsweredConcat(c, events, [Decided(i, d.outcome, d.policyId)]);
    if d.outcome.Allow? {
      BudgetGateAnswers(c, i, d.policyId, env1, events + [Decided(i, d.outcome, d.policyId)]);
    }
  }

  lemma GateAnswers<H, E(!new)>(c: Context<H, E>, i: nat, env: E)
    requires i < |c.plan.steps|
    ensures AllAnswered(c, Gate(c, i, env).events)
  {
    hide PolicyGate;
    if c.Governed(i) {
      var (allowed, env1) := c.ports.govern(env, c.plan.steps[i].action, i);
      assert Answered(c, Governor(i, allowed));
      if allowed {
        PolicyGateAnswers(c, i, env1, [Governor(i, true)]);
      }
    } else {
      PolicyGateAnswers(c, i, env, []);
    }
  }

  lemma ActAnswers<H, E(!new)>(c: Context<H, E>, i: nat, s: Run<H, E>)
    requires i < |c.plan.steps| && c.Valid(s.executed) && AllAnswered(c, s.trace)
    ensures AllAnswered(c, Act(c, i, s, Gate(c, i, s.env)).run.trace)
  {
    hide Gate, ExecuteAllowed, Answered, UndoRowsAgree;
    var g := Gate(c, i, s.env);
    GateAnswers(c, i, s.env);
    AnsweredConcat(c, s.trace, g.events);
    var t := s.trace + g.events;
    var p := Act(c, i, s, g);
    if g.ruling.Proceed? {
      var effect, row, undone := ExecuteRules(c, i, g.ruling.policyId, s.(env := g.env).Log(g.events));
      var refund := ActTrace(c, i, s, g);
      assert p.run.trace == t + (effect + [row] + undone + refund);
      NoUndoRows(effect + [row]);
      NoUndoRows(refund);
      AgreeConcat(effect + [row], undone);
      AgreeConcat(effect + [row] + undone, refund);
      NoFindings(c, effect + [row] + undone + refund);
      AnsweredConcat(c, t, effect + [row] + undone + refund);
    } else {
      NoUndoRows([p.run.trace[|t|]]);
      NoFindings(c, [p.run.trace[|t|]]);
      AnsweredConcat(c, t, [p.run.trace[|t|]]);
    }
  }

  lemma NoFindings<H, E(!new)>(c: Context<H, E>, t: seq<Event>)
    requires (forall k :: 0 <= k < |t| ==> !IsFinding(t[k])) && UndoRowsAgree(t)
    ensures AllAnswered(c, t)
  {
  }

  lemma {:induction false} RunAnswers<H, E(!new)>(c: Context<H, E>, i: nat, s: Run<H, E>)
    requires i <= |c.plan.steps| && c.Valid(s.executed) && AllAnswered(c, s.trace)
    ensures AllAnswered(c, RunFrom(c, i, s).run.trace)
    decreases |c.plan.steps| - i
  {
    hide Act, Gate, AllAnswered;
    if i < |c.plan.steps| {
      ActAnswers(c, i, s);
      if VisitStep(c, i, s).Continue? {
        RunAnswers(c, i + 1, VisitStep(c, i, s).run);
      }
    }
  }

  /** In every run, every finding is its port's answer about that step, and every rollback's row says how it went. */
  lemma FindingsAreAnswers<H, E(!new)>(c: Context<H, E>, host: H, env: E, before: seq<nat>)
    requires c.Valid(before)
    ensures AllAnswered(c, RunAll(c, host, env, before).run.trace)
  {
    hide RunFrom;
    RunAnswers(c, 0, Start(host, env, before));
  }
}
