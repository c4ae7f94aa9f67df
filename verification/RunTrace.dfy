/**
 * What every run writes, whatever its ports answer: effects in the order of `executed`, undo
 * strictly last in first out, one ledger row per visited step and per attempted rollback, and
 * no step attempted twice, even across a pause and its resume.
 */
module RunTrace {
  import opened Domain
  import opened Policy
  import opened Control

  datatype Kind = Attempt | Took | UndoTried | UndoTook | StepRow | UndoRow

  predicate Is(kind: Kind, event: Event) {
    match kind
    case Attempt => event.Effect?
    case Took => event.Effect? && event.ok
    case UndoTried => event.Undo?
    case UndoTook => event.Undo? && event.ok
    case StepRow => event.Row? && !event.undo
    case UndoRow => event.Row? && event.undo
  }

  /** The step indices of the events of one kind, in order. */
  function Pick(trace: seq<Event>, kind: Kind): seq<nat> {
    if trace == [] then []
    else
      var n := |trace| - 1;
      Pick(trace[..n], kind) + if Is(kind, trace[n]) then [trace[n].index] else []
  }

  lemma {:induction false} PickConcat(a: seq<Event>, b: seq<Event>, kind: Kind)
    ensures Pick(a + b, kind) == Pick(a, kind) + Pick(b, kind)
  {
    if b == [] {
      assert a + b == a;
    } else {
      var n := |b| - 1;
      assert (a + b)[..|a| + n] == a + b[..n];
      PickConcat(a, b[..n], kind);
    }
  }

  lemma PickPair(t: seq<Event>, x: Event, y: Event, kind: Kind)
    ensures Pick(t + [x, y], kind) ==
            Pick(t, kind) + (if Is(kind, x) then [x.index] else []) + if Is(kind, y) then [y.index] else []
  {
    assert (t + [x, y])[..|t| + 1] == t + [x];
    assert (t + [x])[..|t|] == t;
  }

  lemma PickOne(t: seq<Event>, x: Event, kind: Kind)
    ensures Pick(t + [x], kind) == Pick(t, kind) + if Is(kind, x) then [x.index] else []
  {
    assert (t + [x])[..|t|] == t;
  }

  /** Gates and refunds only: no effect, no undo, no ledger row. */
  predicate Quiet(events: seq<Event>) {
    forall k :: 0 <= k < |events| ==> events[k].Governor? || events[k].Decided? || events[k].Reserve? || events[k].Refund?
  }

  lemma {:induction false} PickQuiet(events: seq<Event>, kind: Kind)
    requires Quiet(events)
    ensures Pick(events, kind) == []
  {
    if events != [] {
      PickQuiet(events[..|events| - 1], kind);
    }
  }

  lemma GateIsQuiet<H, E>(c: Context<H, E>, i: nat, env: E)
    requires i < |c.plan.steps|
    ensures Quiet(Gate(c, i, env).events)
  {
  }

  function Reverse(s: seq<nat>): seq<nat> {
    if s == [] then [] else [s[|s| - 1]] + Reverse(s[..|s| - 1])
  }

  // ---------------------------------------------------------------- rollback

  lemma TryUndoPick<H, E>(c: Context<H, E>, s: Run<H, E>, index: nat, kind: Kind)
    requires index < |c.plan.steps| && c.plan.steps[index].rollback.Some?
    ensures var (r, ok) := TryUndo(c, s, index);
            Pick(r.trace, kind) ==
            Pick(s.trace, kind)
            + if kind == UndoTried || kind == UndoRow || (kind == UndoTook && ok) then [index] else []
  {
    hide ExecuteAction;
    var n := |s.trace|;
    var r := TryUndo(c, s, index).0;
    PickPair(s.trace, r.trace[n], r.trace[n + 1], kind);
  }

  /** What undoing the first `n` executed steps adds to one kind of event. */
  predicate Lifo<H, E>(s: Run<H, E>, n: nat, r: Run<H, E>, kind: Kind)
    requires n <= |s.executed|
  {
    var undone := Pick(s.trace, kind) + Reverse(s.executed[..n]);
    && (kind in {Attempt, Took, StepRow} ==> Pick(r.trace, kind) == Pick(s.trace, kind))
    && (kind in {UndoTried, UndoTook, UndoRow} ==> Pick(r.trace, kind) <= undone)
    && (kind == UndoTook ==> (r.status.RolledBack? <==> Pick(r.trace, kind) == undone))
  }

  lemma {:induction false} UndoIsLifo<H, E>(c: Context<H, E>, s: Run<H, E>, n: nat, kind: Kind)
    requires n <= |s.executed| && c.Valid(s.executed)
    ensures Lifo(s, n, UndoFrom(c, s, n), kind)
    decreases n
  {
    hide Pick, TryUndo;
    if n > 0 {
      var i := s.executed[n - 1];
      assert s.executed[..n][..n - 1] == s.executed[..n - 1];
      var rest := Reverse(s.executed[..n - 1]);
      assert Reverse(s.executed[..n]) == [i] + rest;
      assert Pick(s.trace, kind) + ([i] + rest) == Pick(s.trace, kind) + [i] + rest;
      hide Reverse;
      if c.plan.steps[i].rollback.Some? {
        TryUndoPick(c, s, i, kind);
        var (s1, ok) := TryUndo(c, s, i);
        if ok {
          UndoIsLifo(c, s1, n - 1, kind);
        }
      }
    }
  }

  lemma {:induction false} UndoRowsMatch<H, E>(c: Context<H, E>, s: Run<H, E>, n: nat)
    requires n <= |s.executed| && c.Valid(s.executed)
    requires Pick(s.trace, UndoRow) == Pick(s.trace, UndoTried)
    ensures Pick(UndoFrom(c, s, n).trace, UndoRow) == Pick(UndoFrom(c, s, n).trace, UndoTried)
    decreases n
  {
    hide Pick, TryUndo;
    if n > 0 && c.plan.steps[s.executed[n - 1]].rollback.Some? {
      TryUndoPick(c, s, s.executed[n - 1], UndoRow);
      TryUndoPick(c, s, s.executed[n - 1], UndoTried);
      var (s1, ok) := TryUndo(c, s, s.executed[n - 1]);
      if ok {
        UndoRowsMatch(c, s1, n - 1);
      }
    }
  }

  lemma FailStopPick<H, E>(c: Context<H, E>, i: nat, policyId: string, s: Run<H, E>)
    requires c.Valid(s.executed)
    requires Pick(s.trace, UndoTried) == Pick(s.trace, UndoTook) == Pick(s.trace, UndoRow) == []
    ensures var r := FailStop(c, i, policyId, s);
            && Pick(r.trace, Attempt) == Pick(s.trace, Attempt)
            && Pick(r.trace, Took) == Pick(s.trace, Took)
            && Pick(r.trace, StepRow) == Pick(s.trace, StepRow) + [i]
            && Pick(r.trace, UndoRow) == Pick(r.trace, UndoTried) <= Reverse(s.executed)
            && Pick(r.trace, UndoTook) <= Reverse(s.executed)
            && (r.status.RolledBack? <==> s.executed != [] && Pick(r.trace, UndoTook) == Reverse(s.executed))
  {
    var row := Row(i, false, VerdictAllow, policyId, RowFailed, false);
    var s1 := s.(executions := s.executions + [Execution(i, false, false)], status := PlanStatus.Failed).Log([row]);
    forall kind: Kind ensures Pick(s1.trace, kind) == Pick(s.trace, kind) + if kind == StepRow then [i] else [] {
      PickOne(s.trace, row, kind);
    }
    if s.executed != [] {
      hide Pick, UndoFrom;
      var s2 := s1.(status := RollingBack);
      var n := |s.executed|;
      var r := UndoFrom(c, s2, n);
      assert s2.executed[..n] == s.executed;
      UndoRowsMatch(c, s2, n);
      forall kind: Kind ensures Lifo(s2, n, r, kind) {
        UndoIsLifo(c, s2, n, kind);
      }
      assert Lifo(s2, n, r, Attempt) && Lifo(s2, n, r, Took) && Lifo(s2, n, r, StepRow);
      assert Lifo(s2, n, r, UndoTried) && Lifo(s2, n, r, UndoTook) && Lifo(s2, n, r, UndoRow);
    }
  }

  // ---------------------------------------------------------------- one step

  ghost predicate NothingUndone<H, E>(s: Run<H, E>) {
    Pick(s.trace, UndoTried) == Pick(s.trace, UndoTook) == Pick(s.trace, UndoRow) == []
  }

  /** What visiting step `i` adds to the trace of a run that has undone nothing yet. */
  ghost predicate Advanced<H, E>(i: nat, s: Run<H, E>, p: Progress<H, E>) {
    var t := p.run.trace;
    && Pick(t, StepRow) == Pick(s.trace, StepRow) + [i]
    && (!p.Finished? ==>
          && NothingUndone(p.run)
          && p.run.status == s.status
          && (|| (&& p.run.executed == s.executed + [i]
                  && Pick(t, Attempt) == Pick(s.trace, Attempt) + [i]
                  && Pick(t, Took) == Pick(s.trace, Took) + [i])
              || (&& p.run.executed == s.executed
                  && Pick(t, Attempt) == Pick(s.trace, Attempt)
                  && Pick(t, Took) == Pick(s.trace, Took))))
    && (p.Finished? ==>
          && p.run.executed == s.executed
          && Pick(t, Took) == Pick(s.trace, Took)
          && (Pick(t, Attempt) == Pick(s.trace, Attempt) || Pick(t, Attempt) == Pick(s.trace, Attempt) + [i])
          && Pick(t, UndoRow) == Pick(t, UndoTried) <= Reverse(s.executed)
          && Pick(t, UndoTook) <= Reverse(s.executed)
          && p.run.status in {PlanStatus.Failed, RolledBack, NeedsManual}
          && (p.run.status.RolledBack? <==> s.executed != [] && Pick(t, UndoTook) == Reverse(s.executed)))
  }

  lemma ExecuteAdvances<H, E>(c: Context<H, E>, i: nat, policyId: string, s: Run<H, E>)
    requires i < |c.plan.steps| && c.Valid(s.executed) && NothingUndone(s)
    ensures var (r, terminal) := ExecuteAllowed(c, i, policyId, s);
            Advanced(i, s, if terminal then Finished(r) else Continue(r))
  {
    hide Pick, FailStop, ExecuteAction;
    var action := c.plan.steps[i].action;
    var holds := DesiredStateHolds(c.ports, s.env, s.host, action);
    if holds == None {
      FailStopPick(c, i, policyId, s);
    } else if holds == Some(true) {
      forall kind: Kind { PickOne(s.trace, Row(i, false, VerdictAllow, policyId, RowOk, true), kind); }
    } else {
      var did := ExecuteAction(c.ports, s.env, s.host, action, policyId);
      if did.Done? {
        forall kind: Kind {
          PickPair(s.trace, Effect(i, policyId, true, did.marked), Row(i, false, VerdictAllow, policyId, RowOk, false), kind);
        }
      } else {
        var s1 := s.(host := did.host, env := did.env).Log([Effect(i, policyId, false, false)]);
        forall kind: Kind { PickOne(s.trace, Effect(i, policyId, false, false), kind); }
        FailStopPick(c, i, policyId, s1);
      }
    }
  }

  lemma ActAdvances<H, E>(c: Context<H, E>, i: nat, s: Run<H, E>, g: Gated<E>)
    requires i < |c.plan.steps| && c.Valid(s.executed) && NothingUndone(s) && Quiet(g.events)
    ensures Advanced(i, s, Act(c, i, s, g))
  {
    hide Pick, ExecuteAllowed;
    var s1 := s.(env := g.env).Log(g.events);
    forall kind: Kind ensures Pick(s1.trace, kind) == Pick(s.trace, kind) {
      PickConcat(s.trace, g.events, kind);
      PickQuiet(g.events, kind);
    }
    match g.ruling
    case Refuse(policyId) =>
      forall kind: Kind { PickOne(s1.trace, Row(i, false, VerdictDeny, policyId, RowDenied, false), kind); }
    case Pause(policyId) =>
      forall kind: Kind { PickOne(s1.trace, Row(i, false, VerdictRequiresApproval, policyId, RowAwaiting, false), kind); }
    case Proceed(policyId, charge) =>
      ExecuteAdvances(c, i, policyId, s1);
      var (s2, terminal) := ExecuteAllowed(c, i, policyId, s1);
      if charge.Some? {
        forall kind: Kind { PickOne(s2.trace, Refund(i, c.Risk(i), c.plan.blastRadius, charge.value), kind); }
      }
  }

  // ---------------------------------------------------------------- whole runs

  /** The steps below `i` that a run visits: all of them, except what ran before a pause. */
  function Visited(resumed: bool, before: seq<nat>, i: nat): seq<nat> {
    if i == 0 then []
    else Visited(resumed, before, i - 1) + if resumed && i - 1 in before then [] else [i - 1]
  }

  predicate Increasing(s: seq<nat>, bound: nat) {
    && (forall k :: 0 <= k < |s| ==> s[k] < bound)
    && (forall j, k :: 0 <= j < k < |s| ==> s[j] < s[k])
  }

  predicate Disjoint(s: seq<nat>, t: seq<nat>) {
    forall k :: 0 <= k < |s| ==> s[k] !in t
  }

  /** The effects of a run that started with `before`, in terms of the events it picked. */
  predicate InOrder(resumed: bool, before: seq<nat>, m: nat, executed: seq<nat>, took: seq<nat>, attempts: seq<nat>) {
    && executed == before + took
    && took <= attempts
    && Increasing(attempts, m)
    && (resumed ==> Disjoint(attempts, before))
  }

  lemma InOrderGrows(resumed: bool, before: seq<nat>, i: nat, executed: seq<nat>, took: seq<nat>)
    requires InOrder(resumed, before, i, executed, took, took) && !(resumed && i in executed)
    ensures InOrder(resumed, before, i + 1, executed, took, took)
    ensures InOrder(resumed, before, i + 1, executed, took, took + [i])
    ensures InOrder(resumed, before, i + 1, executed + [i], took + [i], took + [i])
  {
    assert before + took + [i] == before + (took + [i]);
  }

  /** The shape of every run over `n` steps that started with `before` and has visited the steps below `m`. */
  ghost predicate Orderly<H, E>(n: nat, resumed: bool, before: seq<nat>, m: nat, p: Progress<H, E>) {
    var t := p.run.trace;
    && InOrder(resumed, before, m, p.run.executed, Pick(t, Took), Pick(t, Attempt))
    && Pick(t, StepRow) == Visited(resumed, before, m)
    && Pick(t, UndoRow) == Pick(t, UndoTried) <= Reverse(p.run.executed)
    && Pick(t, UndoTook) <= Reverse(p.run.executed)
    && (p.run.status.RolledBack? <==> p.run.executed != [] && Pick(t, UndoTook) == Reverse(p.run.executed))
    && (!p.Finished? ==> p.run.status.Executing?)
    && (!p.Finished? || p.run.status in {Completed, Denied} ==> Pick(t, Attempt) == Pick(t, Took) && NothingUndone(p.run))
    && (p.run.status in {Completed, Denied} ==> m == n)
  }

  lemma ReverseEmpty(s: seq<nat>)
    ensures Reverse(s) == [] <==> s == []
  {
  }

  lemma AdvancedIsOrderly<H, E>(n: nat, resumed: bool, before: seq<nat>, i: nat, s: Run<H, E>, p: Progress<H, E>)
    requires Orderly(n, resumed, before, i, Continue(s)) && Advanced(i, s, p)
    requires !(resumed && i in s.executed)
    ensures Orderly(n, resumed, before, i + 1, p)
  {
    hide Pick, InOrder, Reverse;
    InOrderGrows(resumed, before, i, s.executed, Pick(s.trace, Took));
    ReverseEmpty(s.executed);
    ReverseEmpty(p.run.executed);
    InOrderMember(resumed, before, i, s.executed, Pick(s.trace, Took), i);
  }

  lemma InOrderMember(resumed: bool, before: seq<nat>, m: nat, executed: seq<nat>, took: seq<nat>, i: nat)
    requires InOrder(resumed, before, m, executed, took, took) && m <= i
    ensures i in executed <==> i in before
  {
  }

  lemma SkippedIsOrderly<H, E>(n: nat, before: seq<nat>, i: nat, s: Run<H, E>)
    requires Orderly(n, true, before, i, Continue(s)) && i in s.executed
    ensures Orderly(n, true, before, i + 1, Continue(s))
  {
    hide Pick;
    InOrderMember(true, before, i, s.executed, Pick(s.trace, Took), i);
  }

  lemma VisitIsOrderly<H, E>(c: Context<H, E>, before: seq<nat>, i: nat, s: Run<H, E>)
    requires i < |c.plan.steps| && c.Valid(s.executed)
    requires Orderly(|c.plan.steps|, c.resumed, before, i, Continue(s))
    ensures Orderly(|c.plan.steps|, c.resumed, before, i + 1, VisitStep(c, i, s))
  {
    if c.resumed && i in s.executed {
      SkippedIsOrderly(|c.plan.steps|, before, i, s);
    } else {
      hide Pick, Gate, Act;
      var g := Gate(c, i, s.env);
      GateIsQuiet(c, i, s.env);
      ActAdvances(c, i, s, g);
      AdvancedIsOrderly(|c.plan.steps|, c.resumed, before, i, s, Act(c, i, s, g));
    }
  }

  /** Returns the number of plan positions the run went through. */
  lemma {:induction false} RunIsOrderly<H, E>(c: Context<H, E>, before: seq<nat>, i: nat, s: Run<H, E>) returns (m: nat)
    requires i <= |c.plan.steps| && c.Valid(s.executed)
    requires Orderly(|c.plan.steps|, c.resumed, before, i, Continue(s))
    ensures m <= |c.plan.steps| && Orderly(|c.plan.steps|, c.resumed, before, m, RunFrom(c, i, s))
    decreases |c.plan.steps| - i
  {
    hide Pick, VisitStep;
    m := i;
    if i < |c.plan.steps| {
      VisitIsOrderly(c, before, i, s);
      m := i + 1;
      if VisitStep(c, i, s).Continue? {
        m := RunIsOrderly(c, before, i + 1, VisitStep(c, i, s).run);
      }
    }
  }

  /** Every run is orderly, first or resumed, whatever its ports answer. */
  lemma EveryRunIsOrderly<H, E>(c: Context<H, E>, host: H, env: E, before: seq<nat>) returns (m: nat)
    requires c.Valid(before) && (c.resumed || before == [])
    ensures m <= |c.plan.steps| && Orderly(|c.plan.steps|, c.resumed, before, m, RunAll(c, host, env, before))
  {
    assert before + [] == before;
    assert before != [] ==> Reverse(before) != [];
    m := RunIsOrderly(c, before, 0, Start(host, env, before));
  }

  lemma TwoRunsDistinct(m1: nat, m2: nat, took1: seq<nat>, executed2: seq<nat>, took2: seq<nat>, attempts2: seq<nat>)
    requires InOrder(false, [], m1, took1, took1, took1) && InOrder(true, took1, m2, executed2, took2, attempts2)
    ensures forall j, k :: 0 <= j < k < |took1 + attempts2| ==> (took1 + attempts2)[j] != (took1 + attempts2)[k]
  {
  }

  /**
   * At most once: over a first run and the resume of its pause, no step is attempted twice, and
   * the resume carries exactly the effects that ran, oldest first.
   */
  lemma AtMostOnceAcrossPause<H, E>(
    c: Context<H, E>, host: H, env: E, registry: Registry, autonomy: AutonomyMode, host2: H, env2: E)
    requires !c.resumed && RunAll(c, host, env, []).Paused?
    ensures var first := RunAll(c, host, env, []).run;
            var second := RunAll(c.(registry := registry, autonomy := autonomy, resumed := true), host2, env2, first.executed).run;
            var attempts := Pick(first.trace, Attempt) + Pick(second.trace, Attempt);
            && (forall j, k :: 0 <= j < k < |attempts| ==> attempts[j] != attempts[k])
            && first.executed == Pick(first.trace, Took)
            && second.executed == Pick(first.trace, Took) + Pick(second.trace, Took)
  {
    hide Pick, RunAll, InOrder;
    var first := RunAll(c, host, env, []);
    var m1 := EveryRunIsOrderly(c, host, env, []);
    var c2 := c.(registry := registry, autonomy := autonomy, resumed := true);
    var second := RunAll(c2, host2, env2, first.run.executed);
    var m2 := EveryRunIsOrderly(c2, host2, env2, first.run.executed);
    InOrderExecuted(false, [], m1, first.run.executed, Pick(first.run.trace, Took), Pick(first.run.trace, Attempt));
    InOrderExecuted(true, first.run.executed, m2, second.run.executed, Pick(second.run.trace, Took), Pick(second.run.trace, Attempt));
    TwoRunsDistinct(m1, m2, first.run.executed, second.run.executed, Pick(second.run.trace, Took), Pick(second.run.trace, Attempt));
  }

  lemma InOrderExecuted(resumed: bool, before: seq<nat>, m: nat, executed: seq<nat>, took: seq<nat>, attempts: seq<nat>)
    requires InOrder(resumed, before, m, executed, took, attempts)
    ensures executed == before + took && (before == [] ==> executed == took)
  {
    assert [] + took == took;
  }
}
