/** The earned-autonomy state machine: authority climbs rung by rung on evidence and falls at once. */
module Autonomy {
  import opened Domain

  type u32 = x: nat | x <= U32_MAX

  function SaturatingAdd(a: nat, b: nat): nat {
    Saturate(a + b, U32_MAX)
  }

  datatype Phase = Mapping | Shadow | Earned

  datatype Config = Config(shadowMinCycles: u32, rungCleanCycles: u32)

  datatype Signals = Signals(
    ceiling: AutonomyMode,
    providerReady: bool,
    cloudPaired: bool,
    safeMode: bool,
    openCriticalIncidents: nat,
    liveEnvironment: bool,
    failedValidation: bool)
  {
    predicate Clean() {
      providerReady && cloudPaired && !safeMode && openCriticalIncidents == 0 && !failedValidation
    }
  }

  /** One recorded rung change. */
  datatype Move = Move(origin: AutonomyMode, target: AutonomyMode)

  datatype State = State(
    phase: Phase,
    earned: AutonomyMode,
    shadowClean: nat,
    rungClean: nat,
    validated: nat,
    log: seq<Move>)

  const FRESH := State(Mapping, L0Observe, 0, 0, 0, [])

  /** A rung change restarts the validated-work evidence and is recorded; a same-rung call does nothing. */
  function Transition(s: State, to: AutonomyMode): State {
    if s.earned == to then s else s.(earned := to, validated := 0, log := s.log + [Move(s.earned, to)])
  }

  function Revoked(s: State, signals: Signals): State {
    if signals.safeMode && s.earned.Rank() > 0 then Transition(s, L0Observe).(rungClean := 0)
    else if !signals.providerReady && s.earned.Rank() > 0 then Transition(s, s.earned.DemoteRung()).(rungClean := 0)
    else s
  }

  /** The rung gate: streak, validated work above L2, and a ceiling that admits the next rung. */
  function Climbed(config: Config, s: State, ceiling: AutonomyMode): State {
    var next := s.earned.NextRung();
    if && next.Some?
       && s.rungClean >= config.rungCleanCycles
       && (s.validated >= 1 || next.value.Rank() <= 2)
       && next.value.Rank() <= ceiling.Rank()
    then Transition(s.(rungClean := 0), next.value)
    else s
  }

  function Gained(config: Config, s: State, signals: Signals): State {
    if !signals.Clean() then s.(shadowClean := 0, rungClean := 0)
    else
      match s.phase
      case Mapping => if signals.liveEnvironment then s.(phase := Shadow, shadowClean := 0) else s
      case Shadow =>
        var s1 := s.(shadowClean := SaturatingAdd(s.shadowClean, 1));
        if s1.shadowClean >= config.shadowMinCycles
        then Transition(s1.(phase := Earned, shadowClean := 0, rungClean := 0), L2Recommend)
        else s1
      case Earned => Climbed(config, s.(rungClean := SaturatingAdd(s.rungClean, 1)), signals.ceiling)
  }

  datatype Event = Tick(signals: Signals) | ValidationFailed | Validated(count: nat)

  function Next(config: Config, s: State, event: Event): State {
    match event
    case Tick(signals) => Gained(config, Revoked(s, signals), signals)
    case ValidationFailed =>
      if s.earned.Rank() > 0 then Transition(s, s.earned.DemoteRung()).(rungClean := 0) else s
    case Validated(count) => if count == 0 then s else s.(validated := SaturatingAdd(s.validated, count))
  }

  /** The state after a whole history from fresh. */
  function After(config: Config, events: seq<Event>): State {
    if events == [] then FRESH
    else Next(config, After(config, events[..|events| - 1]), events[|events| - 1])
  }

  // ---------------------------------------------------------------- the manager

  class AutonomyManager {
    const config: Config
    var phase: Phase
    var earned: AutonomyMode
    var shadowClean: nat
    var rungClean: nat
    var validated: nat
    var log: seq<Move>

    function Snapshot(): State
      reads this
    {
      State(phase, earned, shadowClean, rungClean, validated, log)
    }

    constructor (config: Config)
      ensures this.config == config && Snapshot() == FRESH
    {
      this.config := config;
      phase, earned, shadowClean, rungClean, validated, log := Mapping, L0Observe, 0, 0, 0, [];
    }

    method TransitionTo(to: AutonomyMode)
      modifies this
      ensures Snapshot() == Transition(old(Snapshot()), to)
    {
      if earned != to {
        log := log + [Move(earned, to)];
        earned := to;
        validated := 0;
      }
    }

    method OnCycle(signals: Signals)
      modifies this
      ensures Snapshot() == Next(config, old(Snapshot()), Tick(signals))
    {
      if signals.safeMode && earned.Rank() > 0 {
        TransitionTo(L0Observe);
        rungClean := 0;
      } else if !signals.providerReady && earned.Rank() > 0 {
        TransitionTo(earned.DemoteRung());
        rungClean := 0;
      }
      if !signals.Clean() {
        shadowClean := 0;
        rungClean := 0;
      } else if phase.Mapping? {
        if signals.liveEnvironment {
          phase := Shadow;
          shadowClean := 0;
        }
      } else if phase.Shadow? {
        shadowClean := SaturatingAdd(shadowClean, 1);
        if shadowClean >= config.shadowMinCycles {
          phase := Phase.Earned;
          shadowClean := 0;
          rungClean := 0;
          TransitionTo(L2Recommend);
        }
      } else {
        rungClean := SaturatingAdd(rungClean, 1);
        var next := earned.NextRung();
        if next.Some? {
          var needsValidatedWork := next.value.Rank() > 2;
          if rungClean >= config.rungCleanCycles && (validated >= 1 || !needsValidatedWork)
             && next.value.Rank() <= signals.ceiling.Rank()
          {
            rungClean := 0;
            TransitionTo(next.value);
          }
        }
      }
    }

    method OnValidationFailed()
      modifies this
      ensures Snapshot() == Next(config, old(Snapshot()), ValidationFailed)
    {
      if earned.Rank() > 0 {
        TransitionTo(earned.DemoteRung());
        rungClean := 0;
      }
    }

    method RecordValidatedExecutions(count: nat)
      modifies this
      ensures Snapshot() == Next(config, old(Snapshot()), Validated(count))
    {
      if count != 0 {
        validated := SaturatingAdd(validated, count);
      }
    }

    method Effective(ceiling: AutonomyMode) returns (mode: AutonomyMode)
      ensures mode.Rank() <= ceiling.Rank() && mode.Rank() <= Snapshot().earned.Rank()
      ensures mode == ceiling || mode == Snapshot().earned
    {
      mode := ceiling.LowerOf(earned);
    }
  }

  // ---------------------------------------------------------------- histories

  function Ticks(events: seq<Event>): nat {
    if events == [] then 0
    else Ticks(events[..|events| - 1]) + if events[|events| - 1].Tick? then 1 else 0
  }

  /** The fewest ticks a state can have cost. */
  function Price(config: Config, s: State): nat {
    match s.phase
    case Mapping => 0
    case Shadow => 1 + s.shadowClean
    case Earned =>
      1 + config.shadowMinCycles + s.rungClean
      + (if s.earned.Rank() >= 3 then config.rungCleanCycles else 0)
      + if s.earned.Rank() >= 4 then config.rungCleanCycles else 0
  }

  /** The earned rung is on the ladder, and is above L0 only once the shadow window has passed. */
  predicate OnLadder(s: State) {
    && s.earned in {L0Observe, L2Recommend, L3Assisted, L4Autonomous}
    && (s.phase.Earned? || (s.earned.L0Observe? && s.rungClean == 0))
  }

  lemma NextCosts(config: Config, s: State, event: Event)
    requires OnLadder(s)
    ensures OnLadder(Next(config, s, event))
    ensures Price(config, Next(config, s, event)) <= Price(config, s) + if event.Tick? then 1 else 0
  {
  }

  /** L1 and L5 are never earned, and no state is reached in fewer ticks than its price. */
  lemma {:induction false} MinimumPrice(config: Config, events: seq<Event>)
    ensures OnLadder(After(config, events))
    ensures Ticks(events) >= Price(config, After(config, events))
    ensures After(config, events).earned.L4Autonomous? ==>
              Ticks(events) >= 1 + config.shadowMinCycles + 2 * config.rungCleanCycles
  {
    if events != [] {
      var n := |events| - 1;
      MinimumPrice(config, events[..n]);
      NextCosts(config, After(config, events[..n]), events[n]);
    }
  }

  // ---------------------------------------------------------------- validated work

  /** Event `i` records validated work while the earned rung is `rung`. */
  predicate WorkAt(config: Config, events: seq<Event>, i: nat, rung: AutonomyMode) {
    i < |events| && events[i].Validated? && events[i].count > 0 && After(config, events[..i]).earned == rung
  }

  ghost predicate Worked(config: Config, events: seq<Event>, rung: AutonomyMode) {
    exists i: nat :: WorkAt(config, events, i, rung)
  }

  ghost predicate WorkedTwice(config: Config, events: seq<Event>) {
    exists i: nat, j: nat :: i < j && WorkAt(config, events, i, L2Recommend) && WorkAt(config, events, j, L3Assisted)
  }

  lemma WorkedLater(config: Config, events: seq<Event>, n: nat)
    requires n <= |events|
    ensures forall rung :: Worked(config, events[..n], rung) ==> Worked(config, events, rung)
    ensures WorkedTwice(config, events[..n]) ==> WorkedTwice(config, events)
  {
    forall i: nat, rung | WorkAt(config, events[..n], i, rung) ensures WorkAt(config, events, i, rung) {
      assert events[..n][..i] == events[..i];
    }
  }

  /** What the current rung, and the validated counter, say about the past. */
  ghost predicate Proven(config: Config, events: seq<Event>) {
    var s := After(config, events);
    && (s.earned.Rank() >= 3 ==> Worked(config, events, L2Recommend))
    && (s.earned.Rank() >= 4 ==> WorkedTwice(config, events))
    && (s.earned.L2Recommend? && s.validated >= 1 ==> Worked(config, events, L2Recommend))
    && (s.earned.L3Assisted? && s.validated >= 1 ==> WorkedTwice(config, events))
  }

  /** L3 takes a validated-work record at L2; L4 takes another, later, at L3. */
  lemma {:induction false} AuthorityIsWorkedFor(config: Config, events: seq<Event>)
    ensures Proven(config, events)
  {
    if events != [] {
      var n := |events| - 1;
      AuthorityIsWorkedFor(config, events[..n]);
      MinimumPrice(config, events[..n]);
      WorkedLater(config, events, n);
      var s := After(config, events[..n]);
      if events[n].Validated? && events[n].count > 0 {
        assert WorkAt(config, events, n, s.earned);
        if s.earned.L3Assisted? {
          var i: nat :| WorkAt(config, events[..n], i, L2Recommend);
          assert events[..n][..i] == events[..i];
          assert WorkAt(config, events, i, L2Recommend);
        }
      }
    }
  }

  // ---------------------------------------------------------------- streaks

  /** Clean ticks in a row, counted back to the last unclean tick or rung change. */
  function Streak(config: Config, events: seq<Event>): nat {
    if events == [] then 0
    else
      var n := |events| - 1;
      if After(config, events).earned != After(config, events[..n]).earned then 0
      else if !events[n].Tick? then Streak(config, events[..n])
      else if events[n].signals.Clean() then Streak(config, events[..n]) + 1
      else 0
  }

  lemma {:induction false} CounterIsStreak(config: Config, events: seq<Event>)
    ensures var s := After(config, events);
            s.phase.Earned? ==> s.rungClean == Saturate(Streak(config, events), U32_MAX)
  {
    if events != [] {
      CounterIsStreak(config, events[..|events| - 1]);
      MinimumPrice(config, events[..|events| - 1]);
    }
  }

  /**
   * No tick both demotes and promotes; a promotion is one rung, on a clean tick, under the
   * ceiling once the shadow window is past, and above L2 it completes an unbroken clean streak
   * since the last rung change with validated work done in it. Safe mode is L0 at once.
   */
  lemma TickMoves(config: Config, events: seq<Event>, signals: Signals)
    ensures var s, s1 := After(config, events), After(config, events + [Tick(signals)]);
            && |s1.log| <= |s.log| + 1
            && (s1.earned.Rank() > s.earned.Rank() ==>
                  && signals.Clean()
                  && s.earned.NextRung() == Some(s1.earned)
                  && (s.phase.Earned? ==> s1.earned.Rank() <= signals.ceiling.Rank())
                  && (s.phase.Earned? ==> Streak(config, events) + 1 >= config.rungCleanCycles)
                  && (s1.earned.Rank() > 2 ==> s.phase.Earned? && s.validated >= 1))
            && (s1.earned.Rank() < s.earned.Rank() ==> s1.earned in {L0Observe, s.earned.DemoteRung()})
            && (signals.safeMode ==> s1.earned.L0Observe?)
  {
    assert (events + [Tick(signals)])[..|events|] == events;
    CounterIsStreak(config, events);
    MinimumPrice(config, events);
  }

  // ---------------------------------------------------------------- what each event does, by its own fields

  /** One rung down the ladder: L4, L3, L2, L0. */
  predicate OneDown(above: AutonomyMode, below: AutonomyMode) {
    || (above == L4Autonomous && below == L3Assisted)
    || (above == L3Assisted && below == L2Recommend)
    || (above == L2Recommend && below == L0Observe)
  }

  predicate OneUp(below: AutonomyMode, above: AutonomyMode) {
    || (below == L0Observe && above == L2Recommend)
    || (below == L2Recommend && above == L3Assisted)
    || (below == L3Assisted && above == L4Autonomous)
  }

  /** A failed validation costs exactly one rung and all progress toward the next; at L0 it changes nothing. */
  lemma FailureDemotes(config: Config, events: seq<Event>)
    ensures var s, s1 := After(config, events), After(config, events + [ValidationFailed]);
            && (s.earned == L0Observe ==> s1 == s)
            && (s.earned != L0Observe ==>
                  && OneDown(s.earned, s1.earned) && s1.rungClean == 0 && s1.validated == 0
                  && s1.phase == s.phase && s1.shadowClean == s.shadowClean)
  {
    MinimumPrice(config, events);
    AfterOne(config, events, ValidationFailed);
  }

  /** Three in a row leave nothing, wherever they start. */
  lemma ThreeFailuresLeaveNothing(config: Config, events: seq<Event>)
    ensures After(config, events + [ValidationFailed, ValidationFailed, ValidationFailed]).earned == L0Observe
  {
    hide After;
    var once := events + [ValidationFailed];
    var twice := once + [ValidationFailed];
    FailureDemotes(config, events);
    FailureDemotes(config, once);
    FailureDemotes(config, twice);
    MinimumPrice(config, events);
    assert twice + [ValidationFailed] == events + [ValidationFailed, ValidationFailed, ValidationFailed];
  }

  /** A tick without a provider costs exactly one rung, and a tick in safe mode all of them. */
  lemma LossesDemote(config: Config, events: seq<Event>, signals: Signals)
    ensures var s, s1 := After(config, events), After(config, events + [Tick(signals)]);
            && (signals.safeMode ==> s1.earned == L0Observe)
            && (!signals.safeMode && !signals.providerReady && s.earned != L0Observe ==> OneDown(s.earned, s1.earned) && s1.validated == 0)
            && (!signals.safeMode && signals.providerReady ==> s1.earned == s.earned || OneUp(s.earned, s1.earned))
            && (s.earned == L0Observe && !signals.providerReady ==> s1.earned == L0Observe)
  {
    MinimumPrice(config, events);
    AfterOne(config, events, Tick(signals));
  }

  /** Any one fault in a tick restarts both counters and moves neither phase nor, upward, the rung. */
  lemma FaultsRestart(config: Config, events: seq<Event>, signals: Signals)
    requires
      || !signals.providerReady || !signals.cloudPaired || signals.safeMode
      || signals.openCriticalIncidents > 0 || signals.failedValidation
    ensures var s, s1 := After(config, events), After(config, events + [Tick(signals)]);
            s1.shadowClean == 0 && s1.rungClean == 0 && s1.phase == s.phase && s1.earned.Rank() <= s.earned.Rank()
  {
    MinimumPrice(config, events);
    AfterOne(config, events, Tick(signals));
  }

  predicate Faultless(signals: Signals) {
    && signals.providerReady && signals.cloudPaired && !signals.safeMode
    && signals.openCriticalIncidents == 0 && !signals.failedValidation
  }

  /** What a faultless tick does, phase by phase: exactly when it moves the phase and exactly when it promotes. */
  lemma FaultlessTick(config: Config, events: seq<Event>, signals: Signals)
    requires Faultless(signals)
    ensures var s, s1 := After(config, events), After(config, events + [Tick(signals)]);
            && (s.phase.Mapping? ==>
                  s1.earned == L0Observe && s1.phase == if signals.liveEnvironment then Shadow else Mapping)
            && (s.phase.Shadow? ==>
                  if s.shadowClean + 1 >= config.shadowMinCycles || s.shadowClean == U32_MAX
                  then s1.phase.Earned? && s1.earned == L2Recommend && s1.rungClean == 0
                  else s1.phase.Shadow? && s1.earned == L0Observe && s1.shadowClean == s.shadowClean + 1)
            && (s.phase.Earned? ==>
                  && s1.phase.Earned?
                  && (s1.earned != s.earned <==>
                      && (Streak(config, events) + 1 >= config.rungCleanCycles)
                      && (|| (s.earned == L0Observe && signals.ceiling.Rank() >= 2)
                          || (s.earned == L2Recommend && signals.ceiling.Rank() >= 3 && s.validated >= 1)
                          || (s.earned == L3Assisted && signals.ceiling.Rank() >= 4 && s.validated >= 1)))
                  && (s1.earned != s.earned ==> OneUp(s.earned, s1.earned) && s1.rungClean == 0 && s1.validated == 0))
  {
    MinimumPrice(config, events);
    CounterIsStreak(config, events);
    AfterOne(config, events, Tick(signals));
  }

  /** The rung changes of a history, oldest first. */
  function Moves(config: Config, events: seq<Event>): seq<Move> {
    if events == [] then []
    else
      var n := |events| - 1;
      var s, s1 := After(config, events[..n]), After(config, events);
      Moves(config, events[..n]) + if s1.earned == s.earned then [] else [Move(s.earned, s1.earned)]
  }

  /** The transition log is the history's rung changes, none left out and none invented. */
  lemma {:induction false} LogIsHistory(config: Config, events: seq<Event>)
    ensures After(config, events).log == Moves(config, events)
  {
    if events != [] {
      var n := |events| - 1;
      LogIsHistory(config, events[..n]);
      MinimumPrice(config, events[..n]);
      hide Moves;
      NextLogs(config, After(config, events[..n]), events[n]);
      MovesStep(config, events);
    }
  }

  lemma MovesStep(config: Config, events: seq<Event>)
    requires events != []
    ensures var n := |events| - 1;
            var s, s1 := After(config, events[..n]), After(config, events);
            Moves(config, events) == Moves(config, events[..n]) + if s1.earned == s.earned then [] else [Move(s.earned, s1.earned)]
  {
  }

  lemma NextLogs(config: Config, s: State, event: Event)
    requires OnLadder(s)
    ensures var s1 := Next(config, s, event);
            s1.log == s.log + if s1.earned == s.earned then [] else [Move(s.earned, s1.earned)]
  {
  }

  /** The validated work recorded since the last rung change. */
  function Work(config: Config, events: seq<Event>): nat {
    if events == [] then 0
    else
      var n := |events| - 1;
      if After(config, events).earned != After(config, events[..n]).earned then 0
      else Work(config, events[..n]) + if events[n].Validated? then events[n].count else 0
  }

  lemma {:induction false} CounterIsWork(config: Config, events: seq<Event>)
    ensures After(config, events).validated == Saturate(Work(config, events), U32_MAX)
  {
    if events != [] {
      CounterIsWork(config, events[..|events| - 1]);
      MinimumPrice(config, events[..|events| - 1]);
    }
  }

  // ---------------------------------------------------------------- the price is attained

  const CLEAN := Tick(Signals(L4Autonomous, true, true, false, 0, true, false))

  function Quiet(n: nat): seq<Event> {
    if n == 0 then [] else Quiet(n - 1) + [CLEAN]
  }

  lemma {:induction false} QuietTicks(events: seq<Event>, n: nat)
    ensures Ticks(events + Quiet(n)) == Ticks(events) + n
  {
    if n == 0 {
      assert events + [] == events;
    } else {
      QuietTicks(events, n - 1);
      assert (events + Quiet(n))[..|events + Quiet(n)| - 1] == events + Quiet(n - 1);
    }
  }

  lemma {:induction false} QuietShadow(config: Config, events: seq<Event>, n: nat)
    requires After(config, events) == FRESH.(phase := Shadow) && n < config.shadowMinCycles
    ensures After(config, events + Quiet(n)) == FRESH.(phase := Shadow, shadowClean := n)
  {
    if n == 0 {
      assert events + [] == events;
    } else {
      QuietShadow(config, events, n - 1);
      assert (events + Quiet(n))[..|events + Quiet(n)| - 1] == events + Quiet(n - 1);
    }
  }

  lemma {:induction false} QuietRung(config: Config, events: seq<Event>, n: nat)
    requires var s := After(config, events); s.phase.Earned? && s.rungClean == 0
    requires n < config.rungCleanCycles
    ensures After(config, events + Quiet(n)) == After(config, events).(rungClean := n)
  {
    hide After;
    if n == 0 {
      assert events + [] == events;
    } else {
      QuietRung(config, events, n - 1);
      AfterOne(config, events + Quiet(n - 1), CLEAN);
      assert events + Quiet(n) == events + Quiet(n - 1) + [CLEAN];
    }
  }

  lemma OneRung(config: Config, events: seq<Event>)
    requires 1 <= config.rungCleanCycles
    requires var s := After(config, events); s.phase.Earned? && s.rungClean == 0 && s.earned in {L2Recommend, L3Assisted}
    ensures var events1 := events + [Validated(1)] + Quiet(config.rungCleanCycles);
            var s := After(config, events1);
            && s.phase.Earned? && s.rungClean == 0 && Some(s.earned) == After(config, events).earned.NextRung()
            && Ticks(events1) == Ticks(events) + config.rungCleanCycles
  {
    hide After, Ticks;
    var worked := events + [Validated(1)];
    AfterOne(config, events, Validated(1));
    var n := config.rungCleanCycles;
    QuietRung(config, worked, n - 1);
    assert worked + Quiet(n) == worked + Quiet(n - 1) + [CLEAN];
    AfterOne(config, worked + Quiet(n - 1), CLEAN);
    QuietTicks(worked, n);
  }

  lemma AfterOne(config: Config, events: seq<Event>, event: Event)
    ensures After(config, events + [event]) == Next(config, After(config, events), event)
    ensures Ticks(events + [event]) == Ticks(events) + if event.Tick? then 1 else 0
  {
    assert (events + [event])[..|events|] == events;
  }

  /** The bound is tight: some history reaches L4 in exactly 1 + shadow + 2 * rung ticks. */
  lemma PriceIsAttained(config: Config) returns (events: seq<Event>)
    requires 1 <= config.shadowMinCycles && 1 <= config.rungCleanCycles
    ensures After(config, events).earned.L4Autonomous?
    ensures Ticks(events) == 1 + config.shadowMinCycles + 2 * config.rungCleanCycles
  {
    hide After, Ticks;
    var n := config.shadowMinCycles;
    assert [] + [CLEAN] == [CLEAN];
    EmptyHistory(config);
    AfterOne(config, [], CLEAN);
    QuietShadow(config, [CLEAN], n - 1);
    events := [CLEAN] + Quiet(n);
    assert events == [CLEAN] + Quiet(n - 1) + [CLEAN];
    AfterOne(config, [CLEAN] + Quiet(n - 1), CLEAN);
    QuietTicks([CLEAN], n);
    OneRung(config, events);
    events := events + [Validated(1)] + Quiet(config.rungCleanCycles);
    OneRung(config, events);
    events := events + [Validated(1)] + Quiet(config.rungCleanCycles);
  }

  lemma EmptyHistory(config: Config)
    ensures After(config, []) == FRESH && Ticks([]) == 0
  {
  }
}
