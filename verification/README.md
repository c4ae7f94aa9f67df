# Argus and its ticket tooling: a verified model

Argus is a host agent that remediates incidents under deterministic control: every step of a plan crosses a
governor, policy, a blast-radius budget, the autonomy matrix and escalation before it may touch the host, a failed
step undoes what ran before it, and authority is earned rung by rung. This project models that control core in
Dafny and proves what it keeps over whole runs, together with the self-contained cores beside it: the report and
ledger buffers, the environment graph, the event correlator, the trend fit and rolling baseline, the chunked-body
decoder, and the ticket, frontmatter and version tooling under `_bmad`.

`dafny verify dfyconfig.toml` checks the whole project.

| file | what it holds |
|---|---|
| `Domain`, `Policy`, `Control` | risk, autonomy levels, the gates, and the run loop as loops proved against recursive meanings |
| `Saga`, `RunTrace`, `Authority`, `Conservation`, `Misreading`, `Resume` | restoration, order and at-most-once, no bypass, budget conservation and when it can fail, pause and resume |
| `Verdicts`, `Effects` | what every visited step is told and why; whose answer every effect, rollback and row is |
| `Budget`, `Autonomy` | the anchored budget windows; the earned-autonomy state machine |
| `Reports`, `Ledger`, `LedgerRuns`, `LedgerOrder` | the bounded report queue; the ledger buffer, its conservation and its order over every run |
| `Environment`, `Ownership`, `EdgeOrders`, `Correlator` | reachability closures; the nearest-owner search, for one edge list and for all; situations |
| `Sums`, `Trend`, `Baseline` | least squares and the rolling window, in exact reals |
| `Utf8`, `Chunks`, `SizeLines` | strict UTF-8; chunked transfer decoding; which size lines are read and why input is refused |
| `Tickets`, `Board`, `Frontmatter`, `Reading`, `JsonStrings`, `Quoting`, `Dumps`, `Titles`, `Lex`, `SemVer` | cycles and chains, the board's groups, frontmatter and what each form of value reads as, quoted and unquoted titles, version order |

Ports, clocks, random identifiers and the host are parameters: `Control.Ports` holds every injected collaborator as
a function that threads an arbitrary environment, so a theorem about a run holds whatever governor, policy, budget,
controllers and concurrent plans answer. Objects whose methods update fields are classes; a class method's contract
names its new state as a function of the old one, and the lemmas are about those functions.

## Where the code and its own words differ

- `control.rs:575` says a resumed plan cannot pause; the escalation pause at `control.rs:906-944` is not guarded by
  `resumed`. `Resume.ResumeCanPauseIff` gives the exact condition, `Resume.UnsurePlansCanPauseAgain` a failing family, and
  `Resume.EscalationPauseRepeats` shows that a plan which escalation paused is never carried past that step by its grant.
- `control.rs:957-968` takes the evidence key `already_desired` for a no-op, whoever wrote it. No executor in the
  repository writes that key today, and `Misreading.ExactWithoutMarks` shows the books then balance on every first run.
  `Misreading.CanUnbalanceIff` says exactly which plans an executor that did write it could unbalance, and
  `Misreading.FreezeIsHandedBack` exhibits such a run.
- `budget.rs:11-14` says a unit is surrendered when the step turned out not to execute; a step whose live state cannot
  be read executes nothing and keeps its unit (`control.rs:1131-1152`): `Conservation.FailedReadKeepsItsUnit`.
- `autonomy.rs:433-434` says concurrent plans cannot overshoot the cap. A window is re-anchored to whatever moment it is
  given (`budget.rs:92-167`), and a plan reads the clock before it waits for the lock, so an operation that carries an
  hour already left wipes the current hour's count. `Budget.CapHoldsIff` says exactly which moments are safe, window by
  window; `Budget.StaleRefundBreaksTheCap` and `Budget.StaleReservationBreaksTheCap` break the cap for every limit.
- `buffer.rs:225` claims the semantics of SQL SUM; `sum_opt` keeps an unknown opener unknown. `Ledger.RolledIsSqlSumIff`
  is exact, and `LedgerRuns.RequeueForgetsTokens` shows a requeue losing known tokens.
- A stamped trace can itself be coalesced away, so what a reader sees undercounts the losses (`buffer.rs:337`):
  `LedgerRuns.StampShortfall` is the exact shortfall, `LedgerRuns.EveryLossReportedIff` when there is none, and
  `LedgerRuns.StampsUndercount` a family of any size.
- `graph.rs:59` says breadth first and pops a stack: `Ownership.StackIsNotBreadthFirst`. `EdgeOrders.NearestInEveryOrderIff`
  says on exactly which graphs the answer is nearest however the edges are listed; `Ownership.OneWayUpIsNearest` is a
  simple condition that suffices.
- `tickets.py:976` writes a pulled ticket's title with plain `json.dumps`, not with `quoted`. `Titles.DumpedTitleReadsIff`
  says exactly which titles read back: those with neither `   #` nor U+0085, U+2028 or U+2029, which dumping leaves as
  they are and `splitlines` splits at. `Titles.CommentTitleIsCut` and `Titles.BrokenTitleIsCut` show one title for each.
- `http_parse.rs:69` says each data chunk is followed by CRLF; the decoder also accepts a chunk that is not.
  `Chunks.RoundTrip` covers both forms and `Chunks.AcceptedIsFramed` shows nothing else is accepted.

## Model

| member | source | states |
|---|---|---|
| `Policy.AutomaticReach` | crates/argus-daemon/src/control.rs:193-289 | a step that passes matrix and escalation needs L3 or above, is never high-risk or destructive, is no unregistered external tool, and at L4/L5 is undoable by another capability, host-bound at most, and backed by a confidence that rounds to 0.75 in single precision: at least 0.75 - 2^-25 |
| `Policy.SingleReaches` | crates/argus-daemon/src/control.rs:227 | the conversion to single precision lets exactly the confidences from 0.75 - 2^-25 on meet the production threshold |
| `Policy.ExternalToolsAreHighRisk` | crates/argus-daemon/src/control.rs:246-289 | the static table rates every external tool high risk, whatever its name |
| `Policy.AutoFixIff` | crates/argus-daemon/src/control.rs:205-240 | escalation lets a step be fixed automatically exactly from L3 on, when it only reads or another capability undoes it, when its declared scope and risk, or else the governed ones, reach at most one host and are not high or destructive, and when the confidence rounds to 0.75 |
| `Policy.MatrixIff` | crates/argus-ai-core/src/decision/autonomy.rs:16-27 | the matrix exactly: nothing below L3, reading and low risk from L3, controlled from L4, high risk and destructive never |
| `Policy.RiskByName` | crates/argus-daemon/src/control.rs:246-289 | the static risk of every capability, by name |
| `Policy.AssistedReach` | crates/argus-daemon/src/control.rs:246-294 | what passes the matrix at L3, by name: services, the freezer, and external tools registered as reading or low risk |
| `Policy.DesiredByName` | crates/argus-validate/src/lib.rs:46-63 | opposite actions aim at opposite states, restarts at the running one, and actions without a state to read at none |
| `Control.RollbackExecuted` | crates/argus-daemon/src/control.rs:1190-1311 | the reverse loop is the recursive undo: newest first, stopping with NeedsManual at the first step that has no rollback or whose rollback fails |
| `Control.ExecuteAllowedStep` | crates/argus-daemon/src/control.rs:1013-1154 | failed read, no-op, success and failure of an approved step, each with its record, its ledger row and, on failure, the rollback |
| `Control.RunPlan` | crates/argus-daemon/src/control.rs:621-989 | the step loop is the recursive run over all steps, with skip on resume, refusal, pause, execution, refund and final status |
| `Control.UndoFrom` | crates/argus-daemon/src/control.rs:1190-1311 | undo ends only in RolledBack or NeedsManual and leaves the executed list, the executions and the denials alone |
| `Control.FailStop` | crates/argus-daemon/src/control.rs:1157-1181 | a failed step is recorded once, never counted as executed, and ends Failed, RolledBack or NeedsManual |
| `Verdicts.EveryStepIsTold` | crates/argus-daemon/src/control.rs:621-989 | in every run, first or resumed, each visited step is put before governor, policy and budget in order, each only after the one before let it through, and gets exactly one row, the one those findings with matrix and escalation call for; denials and executions are recorded in order; a run is paused exactly when its last event is an awaiting row; a run off the end is Denied exactly when it has no Allow row |
| `Verdicts.ApprovalPauses` | crates/argus-daemon/src/control.rs:789-815 | a first run that policy answers with RequireApproval is Paused, and its last event is that step's awaiting row with the policy's id |
| `Verdicts.ExhaustionPauses` | crates/argus-daemon/src/control.rs:846-871 | a run whose reservation was not granted is Paused on `budget.exhausted` |
| `Verdicts.EscalationPauses` | crates/argus-daemon/src/control.rs:906-944 | a run whose allowed step the budget did not stop, the matrix admits and escalation does not, is Paused there |
| `Verdicts.DeniedIff` | crates/argus-daemon/src/control.rs:667-905 | a step has a Deny row exactly on the governor's refusal, the policy's denial, or an allowance the budget did not stop and the matrix does not admit, with the id of whichever it was |
| `Verdicts.LetThroughIff` | crates/argus-daemon/src/control.rs:667-950 | a step has an Allow row exactly on an allowance that budget, matrix and escalation did not stop, or on a resumed run where approval is required |
| `Verdicts.FindingsAreAnswers` | crates/argus-daemon/src/control.rs:667-871 | every governor, policy and budget finding of a run is its port's answer about that step's own action, risk, scope and need of approval, and every rollback's row follows it and says how it went |
| `Effects.EffectsAreAnswers` | crates/argus-daemon/src/control.rs:368-444 | in every run an effect is its port's answer to performing the step on a host where the state it aims at was read and did not hold; actions no port takes, named one by one, fail; a rollback is the answer to the step's own rollback; a row of success or failure follows its effect, or reports a read that found the step done or failed |
| `Saga.UndoRestores` | crates/argus-daemon/src/control.rs:1190-1311 | where rollbacks invert the steps that ran and failures change nothing, an undo leaves what the first k executed steps made of the host, and ends RolledBack exactly when k is 0 |
| `Saga.RunSaga` | crates/argus-daemon/src/control.rs:621-989 | every state of every run is what the executed steps made of the origin; after a failure it is what a prefix of them made, none of them on RolledBack |
| `Saga.RestorationAcrossPause` | crates/argus-daemon/src/control.rs:1190-1311 | a run ending Failed or RolledBack leaves the host as it was before the first run, including what ran before a pause, under any later registry, level and port state; one ending NeedsManual leaves what a non-empty prefix of the steps of both runs made of it |
| `Saga.SwitchMeetsHypotheses` | crates/argus-daemon/src/control.rs:1320-1326 | the hypotheses hold of an idempotent unit that starts and stops, with every plan of starts rolled back by stops and stops by starts |
| `RunTrace.UndoIsLifo` | crates/argus-daemon/src/control.rs:1190-1311 | undo is a prefix of the reversed executed list, and RolledBack exactly when it is all of it and all succeeded |
| `RunTrace.UndoRowsMatch` | crates/argus-daemon/src/control.rs:1232-1281 | one ledger row per attempted rollback, in the same order |
| `RunTrace.EveryRunIsOrderly` | crates/argus-daemon/src/control.rs:667-973 | in every run, executed is the chronological list of effects, each visited step has exactly one row, undo is last in first out, and RolledBack holds exactly when the executed list is non-empty and wholly undone |
| `RunTrace.AtMostOnceAcrossPause` | crates/argus-daemon/src/control.rs:546-577 | over a first run and the resume of its pause no step is attempted twice, and the resume carries exactly the effects that ran |
| `Authority.GateWarrants` | crates/argus-daemon/src/control.rs:667-950 | a ruling to proceed comes with everything its effect and a later refund need |
| `Authority.NoBypass` | crates/argus-daemon/src/control.rs:667-973 | every effect of every run is preceded in the trace by its governor pass when governed, and by policy Allow with matrix, escalation and a granted unit, or by the consumed grant; every refund by its reservation |
| `Authority.FirstRunsStayBounded` | crates/argus-daemon/src/control.rs:621-989 | without a grant no run, at any level, takes a high-risk or destructive effect |
| `Authority.AssistedRunsTouchOnly` | crates/argus-daemon/src/control.rs:621-989 | at L3 a first run takes effect on services, the freezer and external tools registered as reading or low risk only |
| `Conservation.BudgetIsConserved` | crates/argus-daemon/src/control.rs:846-968 | on every set of steps, grants minus refunds are the steps with an Allow row on their own authority that were no already-desired no-op, executed or failed, less misread effects; a resumed run touches no budget |
| `Conservation.FailedReadKeepsItsUnit` | crates/argus-daemon/src/control.rs:1131-1152 | a step whose desired-state read fails ends the run with no effect of its own and no refund |
| `Misreading.ExactWithoutMarks` | crates/argus-daemon/src/control.rs:957-968 | with executors that never write the marker, net consumption equals the kept steps on every set of steps of every first run |
| `Misreading.CanUnbalanceIff` | crates/argus-daemon/src/control.rs:957-968 | some answers of the ports unbalance a first run of a plan exactly when one of its steps passes matrix and escalation and reaches a port |
| `Misreading.MarkedStepIsHandedBack` | crates/argus-daemon/src/control.rs:957-968 | a one-step run whose executor writes the marker takes effect and hands its unit back: net 0, kept 1 |
| `Misreading.FreezeIsHandedBack` | crates/argus-daemon/src/control.rs:957-968 | one such run in full: a freeze at L3 |
| `Resume.GrantsAreSingleUse` | crates/argus-policy/src/approval.rs:81-116 | over every interleaving of grants, resumes and revocations, each recorded approval is consumed at most once |
| `Resume.ConsumePassesIff` | crates/argus-domain/src/cloud.rs:333-338 | in every history of the store a consume passes exactly when an earlier record for its token is a grant of the same context hash that has not expired, with no record, revocation or passing consume of the token between |
| `Resume.ApprovalStore.Record` | crates/argus-policy/src/approval.rs:28-34 | a decision replaces any earlier one for its token |
| `Resume.ApprovalStore.Revoke` | crates/argus-policy/src/approval.rs:110-116 | the token's decision is gone and the others stay |
| `Resume.ApprovalStore.Consume` | crates/argus-policy/src/approval.rs:81-99 | passes exactly when the token's stored decision is granted, has the same hash and has not expired; removes it and nothing else; the store stays what its history says |
| `Resume.ResumeAndRun` | crates/argus-daemon/src/control.rs:534-577 | runs exactly when the token's stored decision is granted, has the same hash and has not expired, and spends it; a refusal is stale exactly on another hash; the arm marked unreachable is taken exactly when the resumed run pauses |
| `Resume.ResumeCanPauseIff` | crates/argus-daemon/src/control.rs:906-944 | a resumed run can pause for some answers of the ports exactly when an unexecuted step passes the matrix but not escalation |
| `Resume.ResumeNeverPauses` | crates/argus-daemon/src/control.rs:906-944 | at L3 or below, or when escalation permits every step left, no resumed run pauses |
| `Resume.UnsurePlansCanPauseAgain` | crates/argus-daemon/src/control.rs:575-576 | at L4/L5, after any executed steps, a plan short of the confidence threshold with any step left that the matrix admits can pause again |
| `Resume.EscalationPauseRepeats` | crates/argus-daemon/src/control.rs:906-944 | a first run paused at a step escalation stops, resumed under the same registry and level with policy, and the governor if the step is governed, letting it through again, neither executes it nor anything after it: it pauses again or fails before it |
| `Budget.RefundUndoesReserve` | crates/argus-policy/src/budget.rs:92-167 | a refund given its reservation's moment restores every window's count |
| `Budget.GrantedIff` | crates/argus-policy/src/budget.rs:92-140 | a unit is granted exactly when every window it is taken from, the hour for low risk, the day for controlled risk and the day for host scope, has room at that moment |
| `Budget.GrantedUpToTheCap` | crates/argus-policy/src/budget.rs:92-140 | over every history of reservations that returns to no period once left, a unit is granted exactly while each such period has fewer outstanding units than its limit |
| `Budget.SameHourIff` | crates/argus-policy/src/budget.rs:64-68 | two moments share an hour window exactly when they lie in the same 3,600 seconds from the epoch |
| `Budget.SameDayIff` | crates/argus-policy/src/budget.rs:70-73 | two moments share a day window exactly when they lie in the same 86,400 seconds from the epoch |
| `Budget.CapHolds` | crates/argus-policy/src/budget.rs:92-167 | over every history of reservations and refunds that returns to no hour or day once left, none has more outstanding units than its limit; moments within a period may come in any order |
| `Budget.CapHoldsIff` | crates/argus-policy/src/budget.rs:77-167 | for each window, the cap holds for all operations and limits at given moments exactly when no period is returned to after it was left |
| `Budget.PeriodsInOrder` | crates/argus-policy/src/budget.rs:66-73 | periods in order, whatever the moments within them, are never returned to |
| `Budget.StaleRefundBreaksTheCap` | crates/argus-policy/src/budget.rs:147-167 | for every limit, one refund with a past hour lets the current hour exceed it |
| `Budget.StaleReservationBreaksTheCap` | crates/argus-policy/src/budget.rs:92-140 | so does one reservation with a past hour, with no refund at all |
| `Budget.Gate.Reserve` | crates/argus-policy/src/budget.rs:92-140 | the windows after a reservation, granted or not, in the source's order of checks |
| `Budget.Gate.Refund` | crates/argus-policy/src/budget.rs:147-167 | the windows after a refund, floored at zero |
| `Autonomy.AutonomyManager.TransitionTo` | crates/argus-daemon/src/autonomy.rs:349-419 | a rung change clears validated work and is recorded; a same-rung call does nothing |
| `Autonomy.AutonomyManager.OnCycle` | crates/argus-daemon/src/autonomy.rs:185-281 | the tick: revocation, then counters reset on an unclean cycle, then the phase's gate |
| `Autonomy.AutonomyManager.OnValidationFailed` | crates/argus-daemon/src/autonomy.rs:286-295 | the state after a failed validation, which `Autonomy.FailureDemotes` gives rung by rung |
| `Autonomy.AutonomyManager.RecordValidatedExecutions` | crates/argus-daemon/src/autonomy.rs:301-310 | adds to the validated work, saturating |
| `Autonomy.AutonomyManager.Effective` | crates/argus-daemon/src/autonomy.rs:166-169 | never above the ceiling or the earned rung, and one of the two |
| `Autonomy.MinimumPrice` | crates/argus-daemon/src/autonomy.rs:185-281 | in every history L1 and L5 are never earned, and L4 takes at least 1 + shadow + 2 * rung ticks |
| `Autonomy.PriceIsAttained` | crates/argus-daemon/src/autonomy.rs:185-281 | some history reaches L4 in exactly that many ticks |
| `Autonomy.AuthorityIsWorkedFor` | crates/argus-daemon/src/autonomy.rs:286-360 | L3 takes a validated-work record made at L2, and L4 a later one made at L3 |
| `Autonomy.CounterIsStreak` | crates/argus-daemon/src/autonomy.rs:185-281 | the rung counter is the number of clean ticks since the last unclean tick or rung change, saturating |
| `Autonomy.TickMoves` | crates/argus-daemon/src/autonomy.rs:185-281 | no tick both demotes and promotes; a promotion is one rung on a clean tick under the ceiling, past L2 on an unbroken streak with validated work; safe mode is L0 at once |
| `Autonomy.FailureDemotes` | crates/argus-daemon/src/autonomy.rs:286-295 | after any history a failed validation takes L4 to L3, L3 to L2 and L2 to L0 with both counters at zero, and changes nothing at L0 |
| `Autonomy.ThreeFailuresLeaveNothing` | crates/argus-daemon/src/autonomy.rs:286-295 | after any history three failed validations in a row leave L0 |
| `Autonomy.LossesDemote` | crates/argus-daemon/src/autonomy.rs:192-203 | after any history a tick without a provider costs exactly one rung above L0, and a tick in safe mode all of them |
| `Autonomy.FaultsRestart` | crates/argus-daemon/src/autonomy.rs:205-281 | any one fault in a tick restarts both counters and moves neither the phase nor, upward, the rung |
| `Autonomy.FaultlessTick` | crates/argus-daemon/src/autonomy.rs:205-281 | what a faultless tick does in each phase, exactly when it moves the phase and exactly when it promotes |
| `Autonomy.LogIsHistory` | crates/argus-daemon/src/autonomy.rs:349-419 | the transition log is the history's rung changes in order, none left out and none invented |
| `Autonomy.CounterIsWork` | crates/argus-daemon/src/autonomy.rs:301-310 | the validated work is what was recorded since the last rung change, saturating |
| `Reports.ReportQueue.Enqueue` | crates/argus-cloud/src/buffer.rs:116-141 | the newest is always held; a full queue gives back the oldest, counted |
| `Reports.ReportQueue.Drain` | crates/argus-cloud/src/buffer.rs:144-154 | the oldest up to the limit leave in order with their attempt counted |
| `Reports.ReportQueue.RequeueFront` | crates/argus-cloud/src/buffer.rs:160-170 | a failed batch goes back in front in order, the oldest overflow dropped and counted |
| `Reports.NextAccounts` | crates/argus-cloud/src/buffer.rs:116-170 | one allowed operation keeps every report in exactly one place, in order, within capacity, every loss counted |
| `Reports.EveryRunIsAccounted` | crates/argus-cloud/src/buffer.rs:116-170 | the same over every legal run |
| `Reports.DropsOnlyWhenFull` | crates/argus-cloud/src/buffer.rs:116-170 | a report is dropped only when capacity newer ones are held afterwards |
| `Reports.ReportsCarry` | crates/argus-cloud/src/buffer.rs:116-170 | over every legal run whatever is held or in flight carries the payload it was enqueued with and the number of its own drains, saturating |
| `Ledger.RolledIsSqlSumIff` | crates/argus-cloud/src/buffer.rs:221-240 | a rolling sum is SQL SUM exactly when it was opened by a known value or saw none |
| `Ledger.LedgerBuffer.TryPushAction` | crates/argus-cloud/src/buffer.rs:293-309 | admits exactly below capacity |
| `Ledger.LedgerBuffer.SacrificeActions` | crates/argus-cloud/src/buffer.rs:314-329 | the oldest up to the count leave, and nothing else changes |
| `Ledger.LedgerBuffer.PushTrace` | crates/argus-cloud/src/buffer.rs:336-358 | coalesces the oldest over capacity and stamps the pending losses on an object payload |
| `Ledger.LedgerBuffer.PushUsage` | crates/argus-cloud/src/buffer.rs:362-372 | merges into the batch of its cycle and model, or opens one |
| `Ledger.LedgerBuffer.Drain` | crates/argus-cloud/src/buffer.rs:376-404 | everything leaves, actions then traces then usage, and only the loss counter stays |
| `Ledger.LedgerBuffer.Requeue` | crates/argus-cloud/src/buffer.rs:408-440 | records return in front of their kind in order, usage is merged |
| `LedgerRuns.LedgerConserves` | crates/argus-cloud/src/buffer.rs:293-440 | on every gauge over every interleaving, what came in is what is held, in flight, delivered or gone, plus what merges forgot |
| `LedgerRuns.NothingForgotten` | crates/argus-cloud/src/buffer.rs:221-440 | actions, stamps, calls, unknowns and durations are never forgotten, and tokens never where no batch of the key was opened by an unknown |
| `LedgerRuns.NothingForgottenIff` | crates/argus-cloud/src/buffer.rs:221-440 | over every history, on every gauge, all that was pushed is accounted for exactly when no push or requeue merged a positive known amount into an unknown batch of its key |
| `LedgerRuns.StampsCountDrops` | crates/argus-cloud/src/buffer.rs:336-358 | stamps ever written plus the live counter are the traces ever coalesced away |
| `LedgerRuns.StampShortfall` | crates/argus-cloud/src/buffer.rs:336-358 | what can still be read falls short of the losses by exactly the stamps that were lost |
| `LedgerRuns.PushLosesReportIff` | crates/argus-cloud/src/buffer.rs:336-358 | a push loses a report exactly when one of the oldest traces over capacity carries a stamp |
| `LedgerRuns.EveryLossReportedIff` | crates/argus-cloud/src/buffer.rs:336-358 | over every history the readable stamps account for every loss exactly when no push coalesced a stamped trace |
| `LedgerRuns.StampsUndercount` | crates/argus-cloud/src/buffer.rs:336-358 | after n undrained traces only 256 losses can be read, however many there were |
| `LedgerRuns.RequeueForgetsTokens` | crates/argus-cloud/src/buffer.rs:408-440 | a requeue into a batch opened by an unknown loses the tokens and keeps the calls |
| `LedgerOrder.OrderIsKept` | crates/argus-cloud/src/buffer.rs:293-440 | over every interleaving of pushes, drains, acknowledgements, sacrifices and requeues, actions and traces each stay in the order they were pushed, in flight first and then held, as long as no requeue overtakes |
| `LedgerOrder.RequeueKeepsOrderIff` | crates/argus-cloud/src/buffer.rs:408-440 | a requeue keeps a stream in order exactly when it does not return a record while a newer one stays in flight |
| `LedgerOrder.RequeueGoesInFront` | crates/argus-cloud/src/buffer.rs:408-440 | whatever was pushed since, a drained buffer's actions and traces go back in front of theirs, in order |
| `LedgerOrder.RequeueUndoesDrain` | crates/argus-cloud/src/buffer.rs:376-440 | after every history with nothing in flight, a drain followed by the requeue of what it drained changes nothing |
| `LedgerOrder.FirstBatchAbsorbs` | crates/argus-cloud/src/buffer.rs:220-243 | a usage record joins the first batch of its key, which keeps its id, adds counts and durations, adds tokens to known ones and leaves an unknown unknown; a new key becomes the last batch |
| `LedgerOrder.OneBatchPerKey` | crates/argus-cloud/src/buffer.rs:362-440 | in every history no two batches share a cycle and model |
| `Environment.Graph.AddNode` | crates/argus-correlate/src/graph.rs:28-30 | the kind of one node is set |
| `Environment.Graph.AddEdge` | crates/argus-correlate/src/graph.rs:32-34 | the edge is appended, repeats allowed |
| `Environment.Graph.Traverse` | crates/argus-correlate/src/graph.rs:78-142 | on every graph, cyclic or not: dependents are the other nodes from which a list of depends-on edges, each target the next source, leads here; dependencies those it leads to; owners those a list of runs-on, belongs-to, managed-by or deployed-by edges leads to; sorted, each listed once for every followed edge from a node expanded before it |
| `Environment.ListedAtMost` | crates/argus-correlate/src/graph.rs:78-142 | no node is listed more often than it has followed edges from expanded nodes, so a node with one such edge is listed once |
| `Environment.DependencyDuality` | crates/argus-correlate/src/graph.rs:78-122 | a depends on b exactly when b has a among its dependents |
| `Ownership.NearestOwnerOfKind` | crates/argus-correlate/src/graph.rs:58-74 | the stack loop is the recursive search |
| `Ownership.NearestOwnerDecides` | crates/argus-correlate/src/graph.rs:58-74 | None exactly when no node that a list of ownership edges leads to has the kind; otherwise such a node |
| `EdgeOrders.NearestInEveryOrderIff` | crates/argus-correlate/src/graph.rs:58-74 | over every listing of the same edges and every assignment of kinds the answer is nearest exactly when no way up without shortcuts comes upon an owner while a nearer one is out of sight |
| `Ownership.OneWayUpIsNearest` | crates/argus-correlate/src/graph.rs:58-74 | on every graph in which at most one owner of each resource is itself owned, the answer is nearest |
| `Ownership.UniqueOwnersAreNearest` | crates/argus-correlate/src/graph.rs:58-74 | where every resource has at most one owner the answer is nearest |
| `Ownership.StackIsNotBreadthFirst` | crates/argus-correlate/src/graph.rs:58-74 | with two owners the farther answer is returned |
| `Correlator.Correlator.Ingest` | crates/argus-correlate/src/correlate.rs:58-87 | joins or opens a situation, keeps the invariant, and answers with its id |
| `Correlator.Correlator.FindSituation` | crates/argus-correlate/src/correlate.rs:89-94 | finds the one situation with an id, open or closed, and every id ever answered |
| `Correlator.Correlator.Close` | crates/argus-correlate/src/correlate.rs:106-116 | moves an open situation to the closed ones, or changes nothing when none has the id |
| `Correlator.IngestKeeps` | crates/argus-correlate/src/correlate.rs:58-87 | every situation still tells exactly the events answered with its id: one key, each within the window of its predecessor, first and last seen, confidence |
| `Correlator.EveryRunTells` | crates/argus-correlate/src/correlate.rs:58-116 | the same over every sequence of ingests and closes |
| `Correlator.EachEventInOneSituation` | crates/argus-correlate/src/correlate.rs:58-116 | each event is a member of exactly one situation, the one its ingest answered with |
| `Correlator.NeighboursJoinIff` | crates/argus-correlate/src/correlate.rs:58-87 | of two successive events of one key with no close between, the later joins exactly within the window |
| `Correlator.ClosedIsFinal` | crates/argus-correlate/src/correlate.rs:68-116 | what was closed is never changed or reopened |
| `Correlator.ConfidenceGrows` | crates/argus-correlate/src/correlate.rs:119-122 | confidence is n parts in n + 1, so it grows strictly with every member and stays below 1 |
| `Trend.FitRefuses` | crates/argus-anomaly/src/trend.rs:44-64 | no fit exactly for fewer than two samples or one shared timestamp |
| `Trend.FitIsOptimal` | crates/argus-anomaly/src/trend.rs:44-101 | no line has a smaller squared error, and 0 <= R² <= 1 |
| `Trend.RSquaredExplains` | crates/argus-anomaly/src/trend.rs:73-101 | 1 - R² is the share of the horizontal line's error left, the residual variance is the mean squared error, and R² is 1 exactly when every sample is on the line |
| `Trend.ReferenceRounding` | crates/argus-anomaly/src/trend.rs:92-127 | truncating the reference to a millisecond moves a projection by at most the slope over 1000 |
| `Trend.EtaExists` | crates/argus-anomaly/src/trend.rs:142-152 | an ETA is given exactly when the trend heads for the threshold faster than the flat slope |
| `Trend.EtaIsTight` | crates/argus-anomaly/src/trend.rs:142-152 | the ETA is not before the start, projects to within the slope over 1000 of the threshold, and never beyond it |
| `Trend.IntervalWidens` | crates/argus-anomaly/src/trend.rs:133-137 | the prediction interval never narrows away from the reference |
| `Trend.IntervalsAddUp` | crates/argus-anomaly/src/trend.rs:44-137 | over the samples of a fit the squared half widths add up to 1.96² residual variances for each sample and two more, but for the rounding of the reference, which is under a millisecond; at the reference the square is n + 1 parts in n of one |
| `Baseline.Baseline.Observe` | crates/argus-anomaly/src/baseline.rs:30-36 | the window stays the last min(capacity, count) observations with their mean and variance |
| `Baseline.Baseline.Recompute` | crates/argus-anomaly/src/baseline.rs:73-92 | mean and population variance of the window, zero when it is empty |
| `Baseline.Baseline.ZScore` | crates/argus-anomaly/src/baseline.rs:62-71 | the score against the window of the whole history |
| `Baseline.Baseline.Detect` | crates/argus-anomaly/src/deviation.rs:46-76 | the static rule first, then the score's threshold |
| `Baseline.VarianceIdentity` | crates/argus-anomaly/src/baseline.rs:73-92 | n times the variance is the sum of squares less n times the squared mean |
| `Baseline.ScoreWithheldIff` | crates/argus-anomaly/src/baseline.rs:60-71 | no score exactly for an unready baseline or a window of one repeated value |
| `Baseline.DeviatesIff` | crates/argus-anomaly/src/deviation.rs:46-76 | the static rule fires exactly above the hard limit; an excursion exactly within it, on a ready window that varies, when n times the squared deviation reaches the squared threshold times the window's sum of squared deviations |
| `Baseline.OutlierBound` | crates/argus-anomaly/src/baseline.rs:73-92 | every value of a window lies within (n - 1) variances, squared, of the mean |
| `Baseline.MembersNeverDeviate` | crates/argus-anomaly/src/deviation.rs:46-76 | a window no larger than the squared threshold never flags one of its own values, so none under ten reaches 3 |
| `Baseline.TenthReadingDeviates` | crates/argus-anomaly/src/deviation.rs:46-76 | the bound is exact: nine equal readings and any tenth reach 3 |
| `Utf8.DecodeEncode` | crates/argus-container/src/http_parse.rs:52-53 | every text's encoding decodes to it |
| `Utf8.EncodeDecode` | crates/argus-container/src/http_parse.rs:52-53 | bytes that decode are the encoding of what they decode to |
| `Chunks.DecodeChunks` | crates/argus-container/src/http_parse.rs:45-75 | the loop is the recursive decoder, on every input, errors included |
| `Chunks.RoundTrip` | crates/argus-container/src/http_parse.rs:45-75 | any framing, each chunk closed by CRLF or not, decodes to its data whatever follows the zero chunk |
| `Chunks.AcceptedIsFramed` | crates/argus-container/src/http_parse.rs:45-75 | whatever is accepted is such a framing of what was returned |
| `Chunks.SizeLineNames` | crates/argus-container/src/http_parse.rs:52-59 | hexadecimal digits, blanks and extensions name their size, unless the extensions are not UTF-8 |
| `Chunks.WireRoundTrip` | crates/argus-container/src/http_parse.rs:43-75 | every encoding of section 7.1 of RFC 9112 decodes to its data, or is refused exactly when some header line is not UTF-8 |
| `Chunks.PrefixRefused` | crates/argus-container/src/http_parse.rs:45-75 | every prefix of a framing that ends before the zero chunk's CRLF does is refused |
| `Chunks.WirePrefixRefused` | crates/argus-container/src/http_parse.rs:45-75 | the same for every encoding of section 7.1 of RFC 9112 |
| `SizeLines.SizeOfIff` | crates/argus-container/src/http_parse.rs:52-59 | a line names a size exactly when it is the UTF-8 of white space, at most one plus sign, hexadecimal digits of that value below 2^64, white space and perhaps extensions; otherwise it is refused for its encoding exactly when no text encodes to it, and for its size in all other cases |
| `SizeLines.SizesRead` | crates/argus-container/src/http_parse.rs:52-59 | every size below 2^64 is read from its numeral, in either case, with any leading zeros, with or without a plus sign |
| `SizeLines.RefusalExplained` | crates/argus-container/src/http_parse.rs:45-75 | every refused input is whole chunks and then a line that does not end, or is no text, or names no size, or names more bytes than are left, as the error says |
| `Tickets.GraphHolds` | _bmad/method/scripts/tickets.py:499 | every ticket's own prerequisites and gates are what the check walks |
| `Tickets.TicketNext` | _bmad/method/scripts/tickets.py:497-506 | from a ticket the check goes to its own prerequisites and gates, even where an epic shares its key |
| `Tickets.EpicNext` | _bmad/method/scripts/tickets.py:497-506 | from an epic the check goes to exactly the epic's own tickets and what its container declares |
| `Tickets.Visit` | _bmad/method/scripts/tickets.py:507-515 | a visit finishes everything below its node in topological order, or reports a path that closes on itself |
| `Tickets.CheckCycles` | _bmad/method/scripts/tickets.py:497-518 | raises exactly when a cycle through tickets, epics and gates is reachable from a ticket, with such a path; otherwise its finish order is topological |
| `Tickets.OrderExcludesCycles` | _bmad/method/scripts/tickets.py:497-518 | a topological order of everything reachable rules out every cycle |
| `Tickets.Chain` | _bmad/method/scripts/tickets.py:559-569 | the memoised recursion ends and gives a longest prerequisite path of unfinished tickets |
| `Tickets.LongestRemainingChain` | _bmad/method/scripts/tickets.py:555-577 | a real path, and none that ends at an in-scope ticket is longer |
| `Tickets.PassedCheckRanks` | _bmad/method/scripts/tickets.py:497-577 | the finish order of a passed check is the reason the recursion ends |
| `Tickets.LoadAndReport` | _bmad/method/scripts/tickets.py:390-577 | check then report: refused exactly on a reachable cycle, otherwise the longest chain |
| `Board.Classify` | _bmad/method/scripts/tickets.py:533-552 | each group is the tickets that belong to it, in tree order |
| `Board.OneGroupEach` | _bmad/method/scripts/tickets.py:533-552 | each unfinished ticket in scope is in exactly one group, and no other ticket is in any |
| `Board.GroupsMean` | _bmad/method/scripts/tickets.py:533-552 | each group exactly, in the tickets' own fields: marked or waiting, under way or in review, free and to be refined, free and not |
| `Board.StuckOnADecision` | _bmad/method/scripts/tickets.py:497-552 | after a passed check, a board with nothing ready or under way waits for a decision: a marked block, a dropped prerequisite, or a finished epic not marked done |
| `Frontmatter.ParseFrontmatter` | _bmad/method/scripts/tickets.py:124-142 | the line loop is the recursive reading of the block, strict or lenient |
| `Reading.ListReads` | _bmad/method/scripts/tickets.py:145-148 | an inline list of trimmed, comma-free items reads as the list of what each item reads as, in order |
| `Reading.EmptyListReads` | _bmad/method/scripts/tickets.py:145-148 | brackets around nothing but blanks read as the empty list |
| `Reading.ListFieldReads` | _bmad/method/scripts/tickets.py:124-148 | a line `key: [..]` gives its key that list, among any other fields of the file, strictly or leniently |
| `Reading.IntegerReads` | _bmad/method/scripts/tickets.py:158-159 | the decimal text of every integer reads back as that number |
| `Reading.FlagsRead` | _bmad/method/scripts/tickets.py:156-157 | `true` and `false` read as the two flags |
| `Reading.SingleQuotedReads` | _bmad/method/scripts/tickets.py:149-155 | every text, single-quoted with its quotes doubled, reads back as itself |
| `JsonStrings.AnySpellingReads` | _bmad/method/scripts/tickets.py:149-155 | however a JSON writer spells a text under section 7 of RFC 8259, each character raw, by a short escape or by code units in either case, the double-quoted scalar reads as that text |
| `Reading.QuotedCommentIff` | _bmad/method/scripts/tickets.py:108 | after double or single quotes, blanks and a hash are dropped with what follows, and anything else is kept |
| `Reading.CommentedReads` | _bmad/method/scripts/tickets.py:139-142 | a quoted value with a comment after it reads back as the value |
| `Reading.LinesRefusedIff` | _bmad/method/scripts/tickets.py:131-135 | a strict reading is refused exactly when some line is a block-list item; a lenient one never |
| `Reading.SkippedIff` | _bmad/method/scripts/tickets.py:131-137 | which lines set nothing |
| `Reading.FieldMeans` | _bmad/method/scripts/tickets.py:138-141 | any other line sets the trimmed text before its first colon to what is read from all after it |
| `Reading.BlockIsShortest` | _bmad/method/scripts/tickets.py:109 | the block is the shortest text between an opening rule and a rule that ends its line |
| `Reading.LinesRejoin` | _bmad/method/scripts/tickets.py:131 | the lines are the text between its breaks, a carriage return and its newline being one |
| `Quoting.QuotedIsBody` | _bmad/method/scripts/tickets.py:1000-1004 | dump, replacement and translation together write each character of the value as one escape or itself, between quotes |
| `Quoting.FieldLineReads` | _bmad/method/scripts/tickets.py:124-160 | the line written for a quoted value is one line and reads back as that key and value |
| `Quoting.ValueOfQuoted` | _bmad/method/scripts/tickets.py:139-160 | a quoted value survives the cut at `   #` and the quoted-comment rule and reads back as itself |
| `Quoting.AcceptedClosesAtEnd` | _bmad/method/scripts/tickets.py:108 | a text the JSON reader accepts has its first unescaped quote at the end, so the quoted-comment rule leaves it alone |
| `Quoting.QuotingRoundTrip` | _bmad/method/scripts/tickets.py:1000-1004 | a file of quoted fields reads back as exactly those values, for every text |
| `Titles.DumpedTitleReadsIff` | _bmad/method/scripts/tickets.py:124-160 | from a file whose title was written with plain `json.dumps`, among any other fields, strictly or leniently, the title reads back exactly when it holds neither `   #` nor U+0085, U+2028 or U+2029 |
| `Titles.QuotedFieldsAreOthers` | _bmad/method/scripts/tickets.py:124-142 | fields written with `quoted` under other keys are such other fields |
| `Titles.CommentTitleIsCut` | _bmad/method/scripts/tickets.py:973-976 | a title with `   #` reads back cut there, with its opening quote |
| `Titles.BrokenTitleIsCut` | _bmad/method/scripts/tickets.py:973-976 | a title with any of the three breaks and no `   #` reads back cut at the break |
| `SemVer.ComparePrerelease` | _bmad/scripts/setup.py:1966-1983 | the loop is the recursive comparison |
| `SemVer.MatchIsGrammar` | _bmad/scripts/setup.py:52-61 | the parser accepts exactly what the grammar writes, and reads back what it wrote |
| `SemVer.ParseOfRender` | _bmad/scripts/setup.py:1949-1963 | the version of a text is the one its derivation names, unless it marks development |
| `SemVer.OrderableIff` | _bmad/scripts/setup.py:1949-1963 | orderable exactly when the grammar writes it without a development mark |
| `SemVer.DevelopmentIff` | _bmad/scripts/setup.py:1949-1963 | the development mark is `-dev` anywhere in the text, in any case |
| `SemVer.NumeralsAreNumbers` | _bmad/scripts/setup.py:52-61 | without leading zeros, different numerals are different numbers |
| `SemVer.LeadingZerosBreakTheOrder` | _bmad/scripts/setup.py:1966-1983 | with a leading zero both directions of the comparison claim the left is newer |
| `SemVer.ListOrder` | _bmad/scripts/setup.py:1966-1983 | on identifier lists: opposite signs, zero exactly when equal, below exactly as section 11.4 of Semantic Versioning 2.0.0 decides |
| `SemVer.SameVersion` | _bmad/scripts/setup.py:1949-1963 | two orderable texts have one version exactly when they agree up to the build metadata |
| `SemVer.ComparisonIsPrecedence` | _bmad/scripts/setup.py:1937-1983 | on all orderable texts: total, opposite signs, transitive, the precedence of section 11, and zero exactly when the texts agree up to the build metadata |

## Left out

- Event publishing, tracing, persistence, timestamps on records and identifier generation: effects without logical content here; fresh identifiers are parameters.
- Internals of governor, policy decision, executors and controllers: parameters of the run, free to answer anything.
- `validate_step` and the validation events it publishes: they do not influence a run.
- The approval-request fields of an outcome: always empty on a finished run.
- `parse_response` and `is_chunked`: splitting at a blank line and a header search, easy members.
- `classify`'s callers, `ref`, `load_folder`, `_resolve` and the commands of `tickets.py`: file reading and report building. That two tickets never share a key is what `load_folder` enforces (tickets.py:257-353), and that references resolve is what `_resolve` enforces (tickets.py:430-494); both are assumptions here.
- Python's recursion limit (tickets.py:498) and its limit on converting very long digit strings.
- Non-ASCII decimal digits in frontmatter integers (tickets.py:158): only ASCII digits are modelled.
- Lone surrogates in written values: a UTF-8 file cannot hold them; read escapes that produce them are modelled.
- The rest of `setup.py`, the TOML library, the user interfaces and the network clients.
- Floating-point rounding, 64-bit saturation of conversions and sub-millisecond timestamps in `trend.rs`, `baseline.rs` and `correlate.rs`: exact reals and integer milliseconds; square roots are compared through squares.
- LedgerRuns.LedgerConserves: usage counters and the trace-loss counter are unbounded, so their saturation is not modelled; attempt counts and payload text are left out.
- LedgerOrder.FirstBatchAbsorbs: counts, tokens and durations are unbounded here; the source's saturate at their integer widths.
- Reports.EveryRunIsAccounted: identifiers number the reports in enqueue order; payloads are opaque.
- Policy.AutomaticReach: single precision is modelled where the production threshold needs it; a confidence that is not a number is not modelled. The production site, standard criticality and adequate evidence are constants at the only call site, so other escalation inputs do not reach it.
- Correlator.ConfidenceGrows: over exact reals; single precision reaches 1 for very large groups.
