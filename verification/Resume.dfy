/** Resuming a paused plan: the single-use grant, and exactly when a resumed run can pause again. */
module Resume {
  import opened Domain
  import opened Policy
  import opened Control
  import opened RunTrace

  // ---------------------------------------------------------------- the grant

  datatype Approval = Approval(token: nat, contextHash: string, granted: bool, expiresAt: int)

  type Approvals = map<nat, Approval>

  predicate Authorizes(approvals: Approvals, token: nat, contextHash: string, now: int) {
    && token in approvals
    && approvals[token].granted
    && approvals[token].token == token
    && approvals[token].contextHash == contextHash
    && now < approvals[token].expiresAt
  }

  datatype StoreOp =
    | Record(approval: Approval)
    | Consume(token: nat, contextHash: string, now: int)
    | Revoke(token: nat)

  predicate Consumes(approvals: Approvals, op: StoreOp, token: nat) {
    op.Consume? && op.token == token && Authorizes(approvals, token, op.contextHash, op.now)
  }

  function Apply(approvals: Approvals, op: StoreOp): Approvals {
    match op
    case Record(approval) => approvals[approval.token := approval]
    case Consume(token, contextHash, now) =>
      if Authorizes(approvals, token, contextHash, now) then approvals - {token} else approvals
    case Revoke(token) => approvals - {token}
  }

  /** How many consumes of `token` a history lets through. */
  function Passed(approvals: Approvals, ops: seq<StoreOp>, token: nat): nat
    decreases |ops|
  {
    if ops == [] then 0
    else (if Consumes(approvals, ops[0], token) then 1 else 0) + Passed(Apply(approvals, ops[0]), ops[1..], token)
  }

  function Recorded(ops: seq<StoreOp>, token: nat): nat {
    if ops == [] then 0
    else (if ops[0].Record? && ops[0].approval.token == token then 1 else 0) + Recorded(ops[1..], token)
  }

  /** However resumes, denials and revocations interleave, each recorded approval is spent at most once. */
  lemma {:induction false} GrantsAreSingleUse(approvals: Approvals, ops: seq<StoreOp>, token: nat)
    ensures Passed(approvals, ops, token) <= Recorded(ops, token) + if token in approvals then 1 else 0
    decreases |ops|
  {
    if ops != [] {
      GrantsAreSingleUse(Apply(approvals, ops[0]), ops[1..], token);
    }
  }

  /** The store after a whole history of operations. */
  function Stored(ops: seq<StoreOp>): Approvals {
    if ops == [] then map[] else Apply(Stored(ops[..|ops| - 1]), ops[|ops| - 1])
  }

  /** Operation `k` consumed a grant. */
  predicate PassedAt(ops: seq<StoreOp>, k: nat)
    requires k < |ops|
  {
    ops[k].Consume? && Consumes(Stored(ops[..k]), ops[k], ops[k].token)
  }

  /** Operation `k` replaces, revokes or spends whatever decision the token had. */
  predicate Touches(ops: seq<StoreOp>, k: nat, token: nat)
    requires k < |ops|
  {
    match ops[k]
    case Record(approval) => approval.token == token
    case Revoke(t) => t == token
    case Consume(t, _, _) => t == token && PassedAt(ops, k)
  }

  /** The decision recorded at `j` is the one in force before operation `k`. */
  ghost predicate InForce(ops: seq<StoreOp>, j: nat, k: nat, token: nat)
    requires k <= |ops|
  {
    && j < k && ops[j].Record? && ops[j].approval.token == token
    && forall i :: j < i < k ==> !Touches(ops, i, token)
  }

  lemma TouchesEarlier(ops: seq<StoreOp>, n: nat, k: nat, token: nat)
    requires k < n <= |ops|
    ensures Touches(ops[..n], k, token) <==> Touches(ops, k, token)
  {
    assert ops[..n][..k] == ops[..k];
  }

  /** The store holds for a token exactly the decision in force. */
  lemma {:induction false} StoredIsInForce(ops: seq<StoreOp>, token: nat)
    ensures token in Stored(ops) ==> exists j: nat :: InForce(ops, j, |ops|, token) && Stored(ops)[token] == ops[j].approval
    ensures forall j: nat :: InForce(ops, j, |ops|, token) ==> token in Stored(ops) && Stored(ops)[token] == ops[j].approval
  {
    if ops != [] {
      var n := |ops| - 1;
      var before := ops[..n];
      StoredIsInForce(before, token);
      assert ops[..n] == before;
      forall i | 0 <= i < n ensures Touches(before, i, token) <==> Touches(ops, i, token) {
        TouchesEarlier(ops, n, i, token);
      }
      hide Touches;
      if Touches(ops, n, token) {
        TouchedLast(ops, token);
      } else {
        UntouchedLast(ops, token);
        if token in Stored(before) {
          var j: nat :| InForce(before, j, n, token) && Stored(before)[token] == before[j].approval;
          assert InForce(ops, j, |ops|, token) && before[j] == ops[j];
        }
        forall j: nat ensures InForce(before, j, n, token) <==> InForce(ops, j, |ops|, token) {
          assert j < n ==> before[j] == ops[j];
          if InForce(ops, j, |ops|, token) {
            InForceIsTouch(ops, j, token);
          }
        }
      }
    }
  }

  lemma InForceIsTouch(ops: seq<StoreOp>, j: nat, token: nat)
    requires InForce(ops, j, |ops|, token)
    ensures Touches(ops, j, token)
  {
  }

  lemma TouchedLast(ops: seq<StoreOp>, token: nat)
    requires ops != [] && Touches(ops, |ops| - 1, token)
    ensures var n := |ops| - 1;
            && (ops[n].Record? <==> token in Stored(ops))
            && (ops[n].Record? ==> InForce(ops, n, |ops|, token) && Stored(ops)[token] == ops[n].approval)
            && forall j: nat :: InForce(ops, j, |ops|, token) ==> j == n && ops[n].Record?
  {
    var n := |ops| - 1;
    assert ops[..n] == ops[..|ops| - 1];
  }

  lemma UntouchedLast(ops: seq<StoreOp>, token: nat)
    requires ops != [] && !Touches(ops, |ops| - 1, token)
    ensures var before := ops[..|ops| - 1];
            && (token in Stored(ops) <==> token in Stored(before))
            && (token in Stored(ops) ==> Stored(ops)[token] == Stored(before)[token])
  {
  }

  /**
   * A consume passes exactly when the decision in force for its token is a grant of the same context that has not
   * expired: recorded before, and neither replaced, revoked nor spent since.
   */
  lemma ConsumePassesIff(ops: seq<StoreOp>, k: nat)
    requires k < |ops| && ops[k].Consume?
    ensures PassedAt(ops, k) <==>
            exists j: nat ::
              && InForce(ops, j, k, ops[k].token)
              && ops[j].approval.granted
              && ops[j].approval.contextHash == ops[k].contextHash
              && ops[k].now < ops[j].approval.expiresAt
  {
    var before, token := ops[..k], ops[k].token;
    StoredIsInForce(before, token);
    forall j: nat ensures InForce(before, j, k, token) <==> InForce(ops, j, k, token) {
      forall i | 0 <= i < k ensures Touches(before, i, token) <==> Touches(ops, i, token) {
        TouchesEarlier(ops, k, i, token);
      }
    }
  }

  class ApprovalStore {
    var approvals: Approvals
    ghost var history: seq<StoreOp>

    ghost predicate Valid()
      reads this
    {
      approvals == Stored(history)
    }

    constructor ()
      ensures Valid() && history == [] && approvals == map[]
    {
      approvals, history := map[], [];
    }

    method Record(approval: Approval)
      requires Valid()
      modifies this
      ensures Valid() && history == old(history) + [StoreOp.Record(approval)]
      ensures approvals == old(approvals)[approval.token := approval]
    {
      approvals := approvals[approval.token := approval];
      history := history + [StoreOp.Record(approval)];
    }

    method Revoke(token: nat)
      requires Valid()
      modifies this
      ensures Valid() && history == old(history) + [StoreOp.Revoke(token)]
      ensures approvals == old(approvals) - {token}
    {
      approvals := approvals - {token};
      history := history + [StoreOp.Revoke(token)];
    }

    /** Passes exactly on a granted decision for the token, of the same context, before it expires; and spends it. */
    method Consume(token: nat, contextHash: string, now: int) returns (consumed: Option<Approval>)
      requires Valid()
      modifies this
      ensures Valid() && history == old(history) + [StoreOp.Consume(token, contextHash, now)]
      ensures consumed.Some? <==>
              && token in old(approvals) && old(approvals)[token].granted
              && old(approvals)[token].contextHash == contextHash && now < old(approvals)[token].expiresAt
      ensures consumed.Some? ==> approvals == old(approvals) - {token} && consumed.value == old(approvals)[token]
      ensures consumed.None? ==> approvals == old(approvals)
      ensures consumed.Some? <==> PassedAt(history, |old(history)|)
    {
      consumed := None;
      StoredUnderToken(history, token);
      ghost var op := StoreOp.Consume(token, contextHash, now);
      assert (history + [op])[..|history|] == history;
      if Authorizes(approvals, token, contextHash, now) {
        consumed := Some(approvals[token]);
        approvals := approvals - {token};
      }
      history := history + [op];
    }
  }

  /** Decisions are kept under their own token. */
  lemma {:induction false} StoredUnderToken(ops: seq<StoreOp>, token: nat)
    ensures token in Stored(ops) ==> Stored(ops)[token].token == token
  {
    if ops != [] {
      StoredUnderToken(ops[..|ops| - 1], token);
    }
  }

  // ---------------------------------------------------------------- the resumed run

  datatype Refusal = Stale | NoGrant

  /** `Panicked` is the arm the source marks unreachable: the resumed run paused. */
  datatype ResumeOutcome<H, E> = Resumed(run: Run<H, E>) | Refused(reason: Refusal) | Panicked(run: Run<H, E>)

  method ResumeAndRun<H, E>(
    store: ApprovalStore, c: Context<H, E>, executed: seq<nat>, token: nat, contextHash: string, now: int, host: H, env: E)
    returns (r: ResumeOutcome<H, E>)
    requires c.resumed && c.Valid(executed) && store.Valid()
    modifies store
    ensures store.Valid() && store.history == old(store.history) + [StoreOp.Consume(token, contextHash, now)]
    ensures !r.Refused? <==>
            && token in old(store.approvals) && old(store.approvals)[token].granted
            && old(store.approvals)[token].contextHash == contextHash && now < old(store.approvals)[token].expiresAt
    ensures !r.Refused? ==> token !in store.approvals
    ensures r.Refused? ==>
              (r.reason.Stale? <==> token in old(store.approvals) && old(store.approvals)[token].contextHash != contextHash)
    ensures !r.Refused? ==>
              && r.run == RunAll(c, host, env, executed).run
              && (r.Panicked? <==> RunAll(c, host, env, executed).Paused?)
  {
    var consumed := store.Consume(token, contextHash, now);
    if consumed.None? {
      var stale := token in store.approvals && store.approvals[token].contextHash != contextHash;
      return Refused(if stale then Stale else NoGrant);
    }
    var p := RunPlan(c, host, env, executed);
    r := if p.Paused? then Panicked(p.run) else Resumed(p.run);
  }

  /** Some step not yet executed passes the matrix but not the escalation gate. */
  ghost predicate CanStick(plan: Plan, registry: Registry, autonomy: AutonomyMode, before: seq<nat>) {
    exists i: nat ::
      && i < |plan.steps| && i !in before
      && SticksAt(plan, registry, autonomy, i)
  }

  predicate SticksAt(plan: Plan, registry: Registry, autonomy: AutonomyMode, i: nat)
    requires i < |plan.steps|
  {
    var risk := GovernedRisk(plan.steps[i].action.capability, registry);
    && MayExecute(autonomy, risk)
    && EscalationBounded(autonomy)
    && !EscalationPermits(plan, registry, i, autonomy, risk)
  }

  lemma ResumedGatePausesOnEscalation<H, E>(c: Context<H, E>, i: nat, env: E)
    requires c.resumed && i < |c.plan.steps| && Gate(c, i, env).ruling.Pause?
    ensures SticksAt(c.plan, c.registry, c.autonomy, i)
  {
  }

  lemma {:induction false} ResumedPausesOnEscalation<H, E>(c: Context<H, E>, before: seq<nat>, i: nat, s: Run<H, E>)
    requires c.resumed && i <= |c.plan.steps| && c.Valid(s.executed) && before <= s.executed
    requires RunFrom(c, i, s).Paused?
    ensures CanStick(c.plan, c.registry, c.autonomy, before)
    decreases |c.plan.steps| - i
  {
    hide Gate, Act, SticksAt;
    if i < |c.plan.steps| {
      var p := VisitStep(c, i, s);
      if p.Continue? {
        ResumedPausesOnEscalation(c, before, i + 1, p.run);
      } else {
        ActPauses(c, i, s, Gate(c, i, s.env));
        ResumedGatePausesOnEscalation(c, i, s.env);
        assert s.executed == before + s.executed[|before|..];
      }
    }
  }

  lemma ActPauses<H, E>(c: Context<H, E>, i: nat, s: Run<H, E>, g: Gated<E>)
    requires i < |c.plan.steps| && c.Valid(s.executed)
    ensures Act(c, i, s, g).Paused? <==> g.ruling.Pause?
  {
  }

  /** Ports that deny every consulted step except the `target`-th; `env` counts the consultations. */
  function Singling<H>(target: nat): Ports<H, int> {
    Ports([],
          (env: int, action: Action, i: nat) => (true, env),
          (env: int, action: Action, risk: RiskClass, scope: BlastRadius, approval: bool) =>
            (Decision(if env == target then Allow else Deny, "singling"), env + 1),
          (env: int) => 0,
          (env: int, risk: RiskClass, scope: BlastRadius, at: int) => (true, env),
          (env: int, risk: RiskClass, scope: BlastRadius, at: int) => env,
          (env: int, host: H, action: Action) => None,
          (env: int, host: H, action: Action, policyId: string) => Performed.Failed(host, env))
  }

  lemma SinglingVisit<H>(c: Context<H, int>, before: seq<nat>, target: nat, i: nat, s: Run<H, int>)
    requires c.resumed && c.Valid(before) && s.executed == before
    requires i <= target < |c.plan.steps| && target !in before
    requires SticksAt(c.plan, c.registry, c.autonomy, target)
    requires c.ports == Singling(|Visited(true, before, target)|)
    requires s.env == |Visited(true, before, i)|
    requires i < target ==> |Visited(true, before, i + 1)| <= |Visited(true, before, target)|
    ensures i == target ==> VisitStep(c, i, s).Paused?
    ensures i < target ==>
              var p := VisitStep(c, i, s);
              p.Continue? && p.run.executed == before && p.run.env == |Visited(true, before, i + 1)|
  {
    hide ExecuteAllowed;
    if !(i in before) {
      var d := c.ports.decide(s.env, c.plan.steps[i].action, c.Risk(i), c.plan.blastRadius,
                              c.Capability(i) in c.registry ==> c.registry[c.Capability(i)].requiresApproval);
      assert d.0.outcome == if i == target then Allow else Deny;
    }
  }

  lemma {:induction false} SinglingPauses<H>(c: Context<H, int>, before: seq<nat>, target: nat, i: nat, s: Run<H, int>)
    requires c.resumed && c.Valid(before) && s.executed == before
    requires i <= target < |c.plan.steps| && target !in before
    requires SticksAt(c.plan, c.registry, c.autonomy, target)
    requires c.ports == Singling(|Visited(true, before, target)|)
    requires s.env == |Visited(true, before, i)|
    ensures RunFrom(c, i, s).Paused?
    decreases target - i
  {
    VisitedGrows(before, if i < target then i + 1 else i, target);
    SinglingVisit(c, before, target, i, s);
    hide VisitStep, SticksAt;
    if i < target {
      SinglingPauses(c, before, target, i + 1, VisitStep(c, i, s).run);
    }
  }

  lemma {:induction false} VisitedGrows(before: seq<nat>, i: nat, j: nat)
    requires i <= j
    ensures |Visited(true, before, i)| <= |Visited(true, before, j)|
    decreases j
  {
    if i < j {
      VisitedGrows(before, i, j - 1);
    }
  }

  ghost predicate CanPause<H(!new)>(plan: Plan, registry: Registry, autonomy: AutonomyMode, before: seq<nat>, host: H)
    requires forall k :: 0 <= k < |before| ==> before[k] < |plan.steps|
  {
    exists ports: Ports<H, int>, env: int :: RunAll(Context(plan, registry, ports, autonomy, true), host, env, before).Paused?
  }

  /**
   * A resumed run can pause again, and so hit the arm marked unreachable, exactly when some
   * unexecuted step passes the autonomy matrix but not escalation: a condition on the plan, the
   * registry and the level alone, for some answers of the ports one way and for all of them the other.
   */
  lemma ResumeCanPauseIff<H(!new)>(plan: Plan, registry: Registry, autonomy: AutonomyMode, before: seq<nat>, host: H)
    requires forall k :: 0 <= k < |before| ==> before[k] < |plan.steps|
    ensures CanPause(plan, registry, autonomy, before, host) <==> CanStick(plan, registry, autonomy, before)
  {
    hide RunFrom;
    if ports: Ports<H, int>, env: int :|
      RunAll(Context(plan, registry, ports, autonomy, true), host, env, before).Paused? {
      ResumedPausesOnEscalation(Context(plan, registry, ports, autonomy, true), before, 0, Start(host, env, before));
    }
    if i: nat :| i < |plan.steps| && i !in before && SticksAt(plan, registry, autonomy, i) {
      var ports: Ports<H, int> := Singling(|Visited(true, before, i)|);
      SinglingPauses(Context(plan, registry, ports, autonomy, true), before, i, 0, Start(host, 0, before));
      assert RunAll(Context(plan, registry, ports, autonomy, true), host, 0, before).Paused?;
    }
  }

  /** Resumed runs never pause at L3 or below, nor when escalation permits every step left. */
  lemma ResumeNeverPauses<H, E>(c: Context<H, E>, host: H, env: E, before: seq<nat>)
    requires c.resumed && c.Valid(before)
    requires || c.autonomy.Rank() <= 3
             || forall i: nat :: i < |c.plan.steps| && i !in before ==>
                                   EscalationPermits(c.plan, c.registry, i, c.autonomy, c.Risk(i))
    ensures RunAll(c, host, env, before).Finished?
  {
    hide RunFrom;
    if RunAll(c, host, env, before).Paused? {
      ResumedPausesOnEscalation(c, before, 0, Start(host, env, before));
      assert false;
    }
  }

  /** The failing family: at L4/L5, any plan short of the confidence threshold with a step left that the matrix admits. */
  lemma UnsurePlansCanPauseAgain<H(!new)>(
    plan: Plan, registry: Registry, autonomy: AutonomyMode, before: seq<nat>, host: H, i: nat)
    requires forall k :: 0 <= k < |before| ==> before[k] < |plan.steps|
    requires EscalationBounded(autonomy) && plan.confidence < CONFIDENT
    requires i < |plan.steps| && i !in before
    requires MayExecute(autonomy, GovernedRisk(plan.steps[i].action.capability, registry))
    ensures CanPause(plan, registry, autonomy, before, host)
  {
    SingleReaches(plan.confidence);
    assert SticksAt(plan, registry, autonomy, i);
    ResumeCanPauseIff(plan, registry, autonomy, before, host);
  }

  // ---------------------------------------------------------------- a grant that cannot help

  function Answer<H, E>(c: Context<H, E>, i: nat, env: E): PolicyOutcome
    requires i < |c.plan.steps|
  {
    var capability := c.Capability(i);
    c.ports.decide(env, c.plan.steps[i].action, c.Risk(i), c.plan.blastRadius,
                   capability in c.registry ==> c.registry[capability].requiresApproval).0.outcome
  }

  /** Policy, and the governor where it is asked, keep letting the step through, as they did before the pause. */
  ghost predicate Repeats<H, E(!new)>(c: Context<H, E>, i: nat)
    requires i < |c.plan.steps|
  {
    forall env: E :: Answer(c, i, env).Allow? && (c.Governed(i) ==> c.ports.govern(env, c.plan.steps[i].action, i).0)
  }

  lemma StuckGate<H, E(!new)>(c: Context<H, E>, i: nat, env: E)
    requires c.resumed && i < |c.plan.steps| && Repeats(c, i)
    requires SticksAt(c.plan, c.registry, c.autonomy, i)
    ensures Gate(c, i, env).ruling.Pause?
  {
    hide EscalationPermits, MayExecute, GovernedRisk;
    var env1 := if c.Governed(i) then c.ports.govern(env, c.plan.steps[i].action, i).1 else env;
    assert Answer(c, i, env1).Allow? && (c.Governed(i) ==> c.ports.govern(env, c.plan.steps[i].action, i).0) by {
      assert Answer(c, i, env).Allow?;
    }
  }

  lemma ActFails<H, E>(c: Context<H, E>, i: nat, s: Run<H, E>, g: Gated<E>)
    requires i < |c.plan.steps| && c.Valid(s.executed)
    ensures Act(c, i, s, g).Finished? ==> Act(c, i, s, g).run.status in {PlanStatus.Failed, RolledBack, NeedsManual}
  {
  }

  /** The run ended at a failed step or is paused again; it neither executed step `i` nor anything after it. */
  ghost predicate Stuck<H, E>(i: nat, before: seq<nat>, p: Progress<H, E>) {
    && (p.Finished? ==> p.run.status in {PlanStatus.Failed, RolledBack, NeedsManual})
    && (forall x <- p.run.executed :: x in before || x < i)
    && i !in p.run.executed
  }

  lemma {:induction false} StuckRun<H, E(!new)>(c: Context<H, E>, i: nat, before: seq<nat>, j: nat, s: Run<H, E>)
    requires c.resumed && j <= i < |c.plan.steps| && c.Valid(s.executed) && Repeats(c, i)
    requires SticksAt(c.plan, c.registry, c.autonomy, i)
    requires i !in s.executed && forall x <- s.executed :: x in before || x < i
    ensures Stuck(i, before, RunFrom(c, j, s))
    decreases i - j
  {
    hide Gate, Act, SticksAt, Repeats;
    if !(j in s.executed) {
      ActFails(c, j, s, Gate(c, j, s.env));
      ActPauses(c, j, s, Gate(c, j, s.env));
    }
    if j == i {
      StuckGate(c, i, s.env);
    } else if VisitStep(c, j, s).Continue? {
      StuckRun(c, i, before, j + 1, VisitStep(c, j, s).run);
    }
  }

  predicate AwaitsAt(event: Event, i: nat) {
    event.Row? && event.index == i && event.result.RowAwaiting?
  }

  /** The step a first run paused at: its last ledger row awaits approval, and everything executed lies before it. */
  ghost predicate PausedAt<H, E>(c: Context<H, E>, i: nat, p: Progress<H, E>) {
    && i < |c.plan.steps| && p.Paused? && p.run.trace != []
    && AwaitsAt(p.run.trace[|p.run.trace| - 1], i)
    && forall x <- p.run.executed :: x < i
  }

  lemma {:induction false} PausedStep<H, E>(c: Context<H, E>, j: nat, s: Run<H, E>) returns (i: nat)
    requires !c.resumed && j <= |c.plan.steps| && c.Valid(s.executed)
    requires (forall x <- s.executed :: x < j) && RunFrom(c, j, s).Paused?
    ensures PausedAt(c, i, RunFrom(c, j, s))
    decreases |c.plan.steps| - j
  {
    hide VisitStep;
    i := j;
    if VisitStep(c, j, s).Continue? {
      i := PausedStep(c, j + 1, VisitStep(c, j, s).run);
    } else {
      PausedVisit(c, j, s);
    }
  }

  lemma PausedVisit<H, E>(c: Context<H, E>, j: nat, s: Run<H, E>)
    requires !c.resumed && j < |c.plan.steps| && c.Valid(s.executed) && VisitStep(c, j, s).Paused?
    ensures var t := VisitStep(c, j, s).run.trace; t != [] && AwaitsAt(t[|t| - 1], j)
  {
    hide Gate, ExecuteAllowed;
  }

  /**
   * A plan that escalation paused cannot be resumed: under the same registry and level, where governor and
   * policy let the paused step through again, the resumed run never gets past it. It pauses once more, which
   * is the arm marked unreachable, or fails at a step before it.
   */
  lemma EscalationPauseRepeats<H, E(!new)>(c: Context<H, E>, host: H, env: E, host2: H, env2: E) returns (i: nat)
    requires !c.resumed && RunAll(c, host, env, []).Paused?
    ensures PausedAt(c, i, RunAll(c, host, env, []))
    ensures SticksAt(c.plan, c.registry, c.autonomy, i) && Repeats(c, i) ==>
              var before := RunAll(c, host, env, []).run.executed;
              Stuck(i, before, RunAll(c.(resumed := true), host2, env2, before))
  {
    hide RunFrom, SticksAt, Repeats, Stuck;
    i := PausedStep(c, 0, Start(host, env, []));
    if SticksAt(c.plan, c.registry, c.autonomy, i) && Repeats(c, i) {
      var before, c2 := RunAll(c, host, env, []).run.executed, c.(resumed := true);
      RepeatsResumed(c, i);
      StuckRun(c2, i, before, 0, Start(host2, env2, before));
    }
  }

  lemma RepeatsResumed<H, E(!new)>(c: Context<H, E>, i: nat)
    requires i < |c.plan.steps| && Repeats(c, i)
    ensures Repeats(c.(resumed := true), i)
  {
    var c2 := c.(resumed := true);
    forall env: E
      ensures Answer(c2, i, env).Allow? && (c2.Governed(i) ==> c2.ports.govern(env, c2.plan.steps[i].action, i).0)
    {
      assert Answer(c, i, env).Allow?;
      assert Answer(c2, i, env) == Answer(c, i, env);
    }
  }
}
