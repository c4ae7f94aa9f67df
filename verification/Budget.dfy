/** The blast-radius budget: anchored UTC windows, one unit reserved or surrendered at a time. */
module Budget {
  import opened Domain

  /** `used` units consumed in the hour or day numbered `anchor`. */
  datatype Window = Window(anchor: int, used: nat)

  datatype Windows = Windows(lowRiskHour: Option<Window>, controlledDay: Option<Window>, hostScopeDay: Option<Window>)

  datatype Limits = Limits(lowRiskPerHour: nat, controlledPerDay: nat, hostScopePerDay: nat)

  const EMPTY := Windows(None, None, None)

  function HourIndex(now: int): int { now / 3_600 }

  function DayIndex(now: int): int { now / 86_400 }

  function Rolled(window: Option<Window>, anchor: int): nat {
    if window.Some? && window.value.anchor == anchor then window.value.used else 0
  }

  function Bump(window: Option<Window>, anchor: int, applies: bool): Option<Window> {
    if applies then Some(Window(anchor, Rolled(window, anchor) + 1)) else window
  }

  /** Rollover, room check in each applicable window, then consumption; false leaves only rollovers behind. */
  function ReserveIn(w: Windows, limits: Limits, risk: RiskClass, scope: BlastRadius, now: int): (bool, Windows) {
    var hour, day := HourIndex(now), DayIndex(now);
    var w1 := if risk.LowRisk? then w.(lowRiskHour := Some(Window(hour, Rolled(w.lowRiskHour, hour)))) else w;
    if risk.LowRisk? && Rolled(w.lowRiskHour, hour) >= limits.lowRiskPerHour then (false, w1)
    else
      var w2 := if risk.Controlled? then w1.(controlledDay := Some(Window(day, Rolled(w.controlledDay, day)))) else w1;
      if risk.Controlled? && Rolled(w.controlledDay, day) >= limits.controlledPerDay then (false, w2)
      else
        var w3 := if scope.Host? then w2.(hostScopeDay := Some(Window(day, Rolled(w.hostScopeDay, day)))) else w2;
        if scope.Host? && Rolled(w.hostScopeDay, day) >= limits.hostScopePerDay then (false, w3)
        else
          (true, Windows(Bump(w3.lowRiskHour, hour, risk.LowRisk?),
                         Bump(w3.controlledDay, day, risk.Controlled?),
                         Bump(w3.hostScopeDay, day, scope.Host?)))
  }

  function Surrendered(window: Option<Window>, anchor: int, applies: bool): Option<Window> {
    if applies then
      var used := Rolled(window, anchor);
      Some(Window(anchor, if used == 0 then 0 else used - 1))
    else window
  }

  function RefundIn(w: Windows, risk: RiskClass, scope: BlastRadius, now: int): Windows {
    Windows(Surrendered(w.lowRiskHour, HourIndex(now), risk.LowRisk?),
            Surrendered(w.controlledDay, DayIndex(now), risk.Controlled?),
            Surrendered(w.hostScopeDay, DayIndex(now), scope.Host?))
  }

  // ---------------------------------------------------------------- the three windows, uniformly

  datatype Which = LowRiskHour | ControlledDay | HostScopeDay

  predicate Applies(which: Which, risk: RiskClass, scope: BlastRadius) {
    match which
    case LowRiskHour => risk.LowRisk?
    case ControlledDay => risk.Controlled?
    case HostScopeDay => scope.Host?
  }

  function Anchor(which: Which, now: int): int {
    if which.LowRiskHour? then HourIndex(now) else DayIndex(now)
  }

  function Limit(which: Which, limits: Limits): nat {
    match which
    case LowRiskHour => limits.lowRiskPerHour
    case ControlledDay => limits.controlledPerDay
    case HostScopeDay => limits.hostScopePerDay
  }

  function Get(which: Which, w: Windows): Option<Window> {
    match which
    case LowRiskHour => w.lowRiskHour
    case ControlledDay => w.controlledDay
    case HostScopeDay => w.hostScopeDay
  }

  /** A reservation surrendered with the moment it was taken leaves every count as it was. */
  lemma RefundUndoesReserve(w: Windows, limits: Limits, risk: RiskClass, scope: BlastRadius, now: int, which: Which)
    requires ReserveIn(w, limits, risk, scope, now).0
    ensures var w2 := RefundIn(ReserveIn(w, limits, risk, scope, now).1, risk, scope, now);
            Rolled(Get(which, w2), Anchor(which, now)) == Rolled(Get(which, w), Anchor(which, now))
  {
  }

  // ---------------------------------------------------------------- histories

  datatype Op = Reserving(risk: RiskClass, scope: BlastRadius, now: int) | Refunding(risk: RiskClass, scope: BlastRadius, now: int)

  function Step(limits: Limits, w: Windows, op: Op): Windows {
    match op
    case Reserving(risk, scope, now) => ReserveIn(w, limits, risk, scope, now).1
    case Refunding(risk, scope, now) => RefundIn(w, risk, scope, now)
  }

  function Play(limits: Limits, ops: seq<Op>): Windows {
    if ops == [] then EMPTY else Step(limits, Play(limits, ops[..|ops| - 1]), ops[|ops| - 1])
  }

  /** What one operation does to one window, and that a grant needs room in it. */
  lemma StepWindow(limits: Limits, w: Windows, op: Op, which: Which)
    ensures var anchor := Anchor(which, op.now);
            var before, after := Get(which, w), Get(which, Step(limits, w, op));
            var used := Rolled(before, anchor);
            if !Applies(which, op.risk, op.scope) then after == before
            else if op.Refunding? then after == Some(Window(anchor, if used == 0 then 0 else used - 1))
            else if ReserveIn(w, limits, op.risk, op.scope, op.now).0 then
              used < Limit(which, limits) && after == Some(Window(anchor, used + 1))
            else after == before || after == Some(Window(anchor, used))
  {
  }

  /** Two moments share an hour window exactly when they lie in the same hour from the epoch. */
  lemma SameHourIff(a: int, b: int)
    ensures Anchor(LowRiskHour, a) == Anchor(LowRiskHour, b) <==>
            exists n: int :: 3_600 * n <= a < 3_600 * (n + 1) && 3_600 * n <= b < 3_600 * (n + 1)
  {
    var n := a / 3_600;
    assert 3_600 * n <= a < 3_600 * (n + 1);
  }

  /** Two moments share a day window, of controlled risk or host scope, exactly when they lie in the same day. */
  lemma SameDayIff(which: Which, a: int, b: int)
    requires !which.LowRiskHour?
    ensures Anchor(which, a) == Anchor(which, b) <==>
            exists n: int :: 86_400 * n <= a < 86_400 * (n + 1) && 86_400 * n <= b < 86_400 * (n + 1)
  {
    var n := a / 86_400;
    assert 86_400 * n <= a < 86_400 * (n + 1);
  }

  /** What one operation adds to the period `anchor` of a window: +1 for a grant, -1 for a refund. */
  function Delta(limits: Limits, w: Windows, op: Op, which: Which, anchor: int): int {
    if !Applies(which, op.risk, op.scope) || Anchor(which, op.now) != anchor then 0
    else if op.Refunding? then -1
    else if ReserveIn(w, limits, op.risk, op.scope, op.now).0 then 1 else 0
  }

  /** Units granted and not surrendered, over a whole history, in the period `anchor`. */
  function Outstanding(limits: Limits, ops: seq<Op>, which: Which, anchor: int): int {
    if ops == [] then 0
    else
      var n := |ops| - 1;
      Outstanding(limits, ops[..n], which, anchor) + Delta(limits, Play(limits, ops[..n]), ops[n], which, anchor)
  }

  // ---------------------------------------------------------------- when the cap holds

  /** The moments of the operations that touch one window, in the order the gate sees them. */
  function Moments(which: Which, ops: seq<Op>): seq<int> {
    if ops == [] then []
    else
      var n := |ops| - 1;
      Moments(which, ops[..n]) + if Applies(which, ops[n].risk, ops[n].scope) then [ops[n].now] else []
  }

  /** No hour or day is returned to once another has been seen. */
  predicate NeverReturns(which: Which, moments: seq<int>) {
    forall i, j, k ::
      (0 <= i < j < k < |moments| && Anchor(which, moments[i]) == Anchor(which, moments[k])) ==>
        Anchor(which, moments[j]) == Anchor(which, moments[k])
  }

  predicate Seen(which: Which, moments: seq<int>, anchor: int) {
    exists k :: 0 <= k < |moments| && Anchor(which, moments[k]) == anchor
  }

  lemma NeverReturnsEarlier(which: Which, moments: seq<int>, now: int)
    requires NeverReturns(which, moments + [now])
    ensures NeverReturns(which, moments)
    ensures Seen(which, moments, Anchor(which, now)) ==> Anchor(which, moments[|moments| - 1]) == Anchor(which, now)
  {
    hide Anchor;
    var all, n := moments + [now], |moments|;
    assert forall k :: 0 <= k < n ==> all[k] == moments[k];
    if k :| 0 <= k < n && Anchor(which, moments[k]) == Anchor(which, now) {
      if k < n - 1 {
        assert Anchor(which, all[n - 1]) == Anchor(which, all[n]);
      }
    }
  }

  lemma SeenSnoc(which: Which, moments: seq<int>, now: int, anchor: int)
    ensures Seen(which, moments + [now], anchor) <==> Seen(which, moments, anchor) || Anchor(which, now) == anchor
  {
    hide Anchor;
    var all := moments + [now];
    assert all[|moments|] == now && forall k :: 0 <= k < |moments| ==> all[k] == moments[k];
  }

  /** The window stands in the last period seen and covers what is outstanding there; other periods keep to the limit. */
  ghost predicate Tracked(limits: Limits, which: Which, window: Option<Window>, moments: seq<int>, anchor: int, outstanding: int) {
    && outstanding <= Limit(which, limits)
    && (window.Some? ==> window.value.used <= Limit(which, limits))
    && (!Seen(which, moments, anchor) ==> outstanding == 0)
    && (window.Some? && window.value.anchor == anchor ==> outstanding <= window.value.used)
    && (moments != [] && Anchor(which, moments[|moments| - 1]) == anchor && (window.None? || window.value.anchor != anchor)
        ==> outstanding <= 0)
  }

  lemma {:induction false} WindowTracks(limits: Limits, ops: seq<Op>, which: Which, anchor: int)
    requires NeverReturns(which, Moments(which, ops))
    ensures Tracked(limits, which, Get(which, Play(limits, ops)), Moments(which, ops), anchor, Outstanding(limits, ops, which, anchor))
  {
    if ops != [] {
      hide Step, ReserveIn, Anchor, Get, Limit, Applies, NeverReturns, Seen;
      var n := |ops| - 1;
      var before := Moments(which, ops[..n]);
      StepWindow(limits, Play(limits, ops[..n]), ops[n], which);
      if Applies(which, ops[n].risk, ops[n].scope) {
        NeverReturnsEarlier(which, before, ops[n].now);
        SeenSnoc(which, before, ops[n].now, anchor);
      } else {
        assert before + [] == before;
      }
      WindowTracks(limits, ops[..n], which, anchor);
    }
  }

  /** The cap: where no period is returned to after it was left, none ever has more outstanding units than its limit. */
  lemma CapHolds(limits: Limits, ops: seq<Op>, which: Which, anchor: int)
    requires NeverReturns(which, Moments(which, ops))
    ensures Outstanding(limits, ops, which, anchor) <= Limit(which, limits)
  {
    WindowTracks(limits, ops, which, anchor);
  }

  // ---------------------------------------------------------------- and when a reservation is granted

  predicate OnlyReserves(ops: seq<Op>) {
    forall k :: 0 <= k < |ops| ==> ops[k].Reserving?
  }

  /** Without refunds the window counts exactly what is outstanding in its period. */
  ghost predicate Counted(which: Which, window: Option<Window>, moments: seq<int>, anchor: int, outstanding: int) {
    && (!Seen(which, moments, anchor) ==> outstanding == 0)
    && (window.Some? && window.value.anchor == anchor ==> outstanding == window.value.used)
    && (moments != [] && Anchor(which, moments[|moments| - 1]) == anchor && (window.None? || window.value.anchor != anchor)
        ==> outstanding == 0)
  }

  lemma {:induction false} WindowCounts(limits: Limits, ops: seq<Op>, which: Which, anchor: int)
    requires NeverReturns(which, Moments(which, ops)) && OnlyReserves(ops)
    ensures Counted(which, Get(which, Play(limits, ops)), Moments(which, ops), anchor, Outstanding(limits, ops, which, anchor))
  {
    if ops != [] {
      hide Step, ReserveIn, Anchor, Get, Limit, Applies, NeverReturns, Seen;
      var n := |ops| - 1;
      var before := Moments(which, ops[..n]);
      StepWindow(limits, Play(limits, ops[..n]), ops[n], which);
      if Applies(which, ops[n].risk, ops[n].scope) {
        NeverReturnsEarlier(which, before, ops[n].now);
        SeenSnoc(which, before, ops[n].now, anchor);
      } else {
        assert before + [] == before;
      }
      WindowCounts(limits, ops[..n], which, anchor);
    }
  }

  /** The units a window has in the hour or day of a moment. */
  function UsedAt(window: Option<Window>, period: nat, now: int): nat {
    if window.Some? && period * window.value.anchor <= now < period * (window.value.anchor + 1) then window.value.used else 0
  }

  /** A unit is granted exactly when each window it would be taken from has room. */
  lemma GrantedIff(w: Windows, limits: Limits, risk: RiskClass, scope: BlastRadius, now: int)
    ensures ReserveIn(w, limits, risk, scope, now).0 <==>
            && (risk.LowRisk? ==> UsedAt(w.lowRiskHour, 3_600, now) < limits.lowRiskPerHour)
            && (risk.Controlled? ==> UsedAt(w.controlledDay, 86_400, now) < limits.controlledPerDay)
            && (scope.Host? ==> UsedAt(w.hostScopeDay, 86_400, now) < limits.hostScopePerDay)
  {
  }

  /** Over every history of reservations that returns to no period once left: granted exactly while each such period is below its limit. */
  lemma GrantedUpToTheCap(limits: Limits, ops: seq<Op>, risk: RiskClass, scope: BlastRadius, now: int)
    requires OnlyReserves(ops)
    requires forall which: Which :: Applies(which, risk, scope) ==> NeverReturns(which, Moments(which, ops) + [now])
    ensures ReserveIn(Play(limits, ops), limits, risk, scope, now).0 <==>
            forall which: Which :: Applies(which, risk, scope) ==>
              Outstanding(limits, ops, which, Anchor(which, now)) < Limit(which, limits)
  {
    hide *;
    RoomIff(Play(limits, ops), limits, risk, scope, now);
    forall which: Which | Applies(which, risk, scope)
      ensures Rolled(Get(which, Play(limits, ops)), Anchor(which, now)) == Outstanding(limits, ops, which, Anchor(which, now))
    {
      CountedNow(limits, ops, which, now);
    }
  }

  lemma CountedNow(limits: Limits, ops: seq<Op>, which: Which, now: int)
    requires OnlyReserves(ops) && NeverReturns(which, Moments(which, ops) + [now])
    ensures Rolled(Get(which, Play(limits, ops)), Anchor(which, now)) == Outstanding(limits, ops, which, Anchor(which, now))
  {
    hide Anchor, Get, Applies, NeverReturns, Outstanding, Play, Moments, OnlyReserves;
    NeverReturnsEarlier(which, Moments(which, ops), now);
    WindowCounts(limits, ops, which, Anchor(which, now));
  }

  lemma RoomIff(w: Windows, limits: Limits, risk: RiskClass, scope: BlastRadius, now: int)
    ensures ReserveIn(w, limits, risk, scope, now).0 <==>
            forall which: Which :: Applies(which, risk, scope) ==> Rolled(Get(which, w), Anchor(which, now)) < Limit(which, limits)
  {
    assert Applies(LowRiskHour, risk, scope) <==> risk.LowRisk?;
    assert Applies(ControlledDay, risk, scope) <==> risk.Controlled?;
    assert Applies(HostScopeDay, risk, scope) <==> scope.Host?;
  }

  /** In particular where the periods, not the moments within them, come in order. */
  lemma PeriodsInOrder(which: Which, moments: seq<int>)
    requires forall j, k :: 0 <= j < k < |moments| ==> Anchor(which, moments[j]) <= Anchor(which, moments[k])
    ensures NeverReturns(which, moments)
  {
    hide Anchor;
  }

  // ---------------------------------------------------------------- and when it can fail

  /** A reservation that touches one window only. */
  function Only(which: Which, now: int): Op {
    match which
    case LowRiskHour => Reserving(LowRisk, Nothing, now)
    case ControlledDay => Reserving(Controlled, Nothing, now)
    case HostScopeDay => Reserving(Read, Host, now)
  }

  function Schedule(which: Which, moments: seq<int>): (r: seq<Op>)
    ensures |r| == |moments| && forall k :: 0 <= k < |r| ==> r[k] == Only(which, moments[k])
  {
    seq(|moments|, k requires 0 <= k < |moments| => Only(which, moments[k]))
  }

  const ONE := Limits(1, 1, 1)

  lemma {:induction false} ScheduleMoments(which: Which, moments: seq<int>)
    ensures Moments(which, Schedule(which, moments)) == moments
  {
    if moments != [] {
      var n := |moments| - 1;
      ScheduleMoments(which, moments[..n]);
      assert Schedule(which, moments)[..n] == Schedule(which, moments[..n]);
      assert moments == moments[..n] + [moments[n]];
    }
  }

  /** How many separate stays in the period the moments make. */
  function Stays(which: Which, moments: seq<int>, anchor: int): nat {
    if moments == [] then 0
    else
      var n := |moments| - 1;
      Stays(which, moments[..n], anchor)
      + if Anchor(which, moments[n]) == anchor && (n == 0 || Anchor(which, moments[n - 1]) != anchor) then 1 else 0
  }

  lemma OnlyStep(which: Which, w: Windows, now: int)
    requires Get(which, w).Some? && Get(which, w).value.anchor == Anchor(which, now) ==> Get(which, w).value.used == 1
    ensures Get(which, Step(ONE, w, Only(which, now))) == Some(Window(Anchor(which, now), 1))
    ensures Delta(ONE, w, Only(which, now), which, Anchor(which, now)) ==
            if Get(which, w).Some? && Get(which, w).value.anchor == Anchor(which, now) then 0 else 1
  {
  }

  /** With a limit of one, a reservation at each moment is granted once per stay. */
  lemma {:induction false} GrantedPerStay(which: Which, moments: seq<int>, anchor: int)
    ensures var ops := Schedule(which, moments);
            && Outstanding(ONE, ops, which, anchor) == Stays(which, moments, anchor)
            && Get(which, Play(ONE, ops)) ==
               if moments == [] then None else Some(Window(Anchor(which, moments[|moments| - 1]), 1))
  {
    if moments != [] {
      var n := |moments| - 1;
      GrantedPerStay(which, moments[..n], anchor);
      var ops := Schedule(which, moments);
      assert ops[..n] == Schedule(which, moments[..n]);
      OnlyStep(which, Play(ONE, ops[..n]), moments[n]);
      hide Anchor, Step, Get, Only, Play;
      assert Delta(ONE, Play(ONE, ops[..n]), ops[n], which, anchor) ==
             if Anchor(which, moments[n]) == anchor && (n == 0 || Anchor(which, moments[n - 1]) != anchor) then 1 else 0;
    }
  }

  lemma {:induction false} StaysGrow(which: Which, moments: seq<int>, n: nat, anchor: int)
    requires n <= |moments|
    ensures Stays(which, moments[..n], anchor) <= Stays(which, moments, anchor)
  {
    if n < |moments| {
      StaysGrow(which, moments[..|moments| - 1], n, anchor);
      assert moments[..|moments| - 1][..n] == moments[..n];
    } else {
      assert moments[..n] == moments;
    }
  }

  lemma {:induction false} SeenStays(which: Which, moments: seq<int>, anchor: int)
    requires Seen(which, moments, anchor)
    ensures Stays(which, moments, anchor) >= 1
  {
    hide Anchor;
    var n := |moments| - 1;
    if Seen(which, moments[..n], anchor) {
      SeenStays(which, moments[..n], anchor);
    } else {
      assert forall k :: 0 <= k < n ==> moments[..n][k] == moments[k];
      assert Anchor(which, moments[n]) == anchor;
    }
  }

  /** A return makes a second stay. */
  lemma {:induction false} ReturnStays(which: Which, moments: seq<int>, i: nat, j: nat, k: nat)
    requires i < j < k < |moments|
    requires Anchor(which, moments[i]) == Anchor(which, moments[k]) != Anchor(which, moments[j])
    ensures Stays(which, moments, Anchor(which, moments[k])) >= 2
    decreases k
  {
    hide Anchor;
    var anchor := Anchor(which, moments[k]);
    if Anchor(which, moments[k - 1]) == anchor {
      ReturnStays(which, moments, i, j, k - 1);
    } else {
      assert moments[..k][i] == moments[i];
      SeenStays(which, moments[..k], anchor);
      assert moments[..k + 1][..k] == moments[..k];
      StaysGrow(which, moments, k + 1, anchor);
    }
  }

  /** Whatever is reserved and refunded at these moments, under whatever limits, the cap holds. */
  ghost predicate Safe(which: Which, moments: seq<int>) {
    forall limits: Limits, ops: seq<Op>, anchor: int ::
      Moments(which, ops) == moments ==> Outstanding(limits, ops, which, anchor) <= Limit(which, limits)
  }

  /**
   * Exactly when the cap is safe, window by window: concurrent plans may pass their moments out of order
   * within an hour or day, but none may come back to one that was left.
   */
  lemma CapHoldsIff(which: Which, moments: seq<int>)
    ensures Safe(which, moments) <==> NeverReturns(which, moments)
  {
    hide Anchor, Limit, Outstanding, Stays;
    if NeverReturns(which, moments) {
      forall limits: Limits, ops: seq<Op>, anchor: int | Moments(which, ops) == moments
        ensures Outstanding(limits, ops, which, anchor) <= Limit(which, limits)
      {
        CapHolds(limits, ops, which, anchor);
      }
    } else {
      var i, j, k :| 0 <= i < j < k < |moments|
        && Anchor(which, moments[i]) == Anchor(which, moments[k]) && Anchor(which, moments[j]) != Anchor(which, moments[k]);
      var anchor, ops := Anchor(which, moments[k]), Schedule(which, moments);
      ReturnStays(which, moments, i, j, k);
      GrantedPerStay(which, moments, anchor);
      ScheduleMoments(which, moments);
      OneIsOne(which);
      assert Outstanding(ONE, ops, which, anchor) > Limit(which, ONE);
    }
  }

  lemma OneIsOne(which: Which)
    ensures Limit(which, ONE) == 1
  {
  }

  // ---------------------------------------------------------------- two ways back, for every limit

  const LOW := Reserving(LowRisk, Nothing, 3_600)

  function Fill(n: nat): seq<Op> {
    if n == 0 then [Reserving(LowRisk, Nothing, 0)] else Fill(n - 1) + [LOW]
  }

  lemma FillStep(limits: Limits, ops: seq<Op>)
    requires Rolled(Play(limits, ops).lowRiskHour, 1) < limits.lowRiskPerHour
    ensures Play(limits, ops + [LOW]).lowRiskHour == Some(Window(1, Rolled(Play(limits, ops).lowRiskHour, 1) + 1))
    ensures Outstanding(limits, ops + [LOW], LowRiskHour, 1) == Outstanding(limits, ops, LowRiskHour, 1) + 1
  {
    assert (ops + [LOW])[..|ops|] == ops;
  }

  lemma {:induction false} FillConsumes(limits: Limits, n: nat)
    requires 1 <= limits.lowRiskPerHour && n <= limits.lowRiskPerHour
    ensures Outstanding(limits, Fill(n), LowRiskHour, 1) == n
    ensures n > 0 ==> Play(limits, Fill(n)).lowRiskHour == Some(Window(1, n))
    ensures n == 0 ==> Play(limits, Fill(n)).lowRiskHour == Some(Window(0, 1))
  {
    if n > 0 {
      FillConsumes(limits, n - 1);
      assert Fill(n)[..|Fill(n)| - 1] == Fill(n - 1);
      hide Fill, Outstanding, Play;
      FillStep(limits, Fill(n - 1));
    }
  }

  /**
   * A refund carries the moment of its reservation. When a concurrent plan has meanwhile moved
   * the window to the next hour, that refund re-anchors it and wipes the new hour's count: for
   * every limit, one such refund lets the hour go over.
   */
  lemma StaleRefundBreaksTheCap(limits: Limits)
    requires 1 <= limits.lowRiskPerHour
    ensures var ops := Fill(limits.lowRiskPerHour) + [Refunding(LowRisk, Nothing, 0), LOW];
            Outstanding(limits, ops, LowRiskHour, 1) == limits.lowRiskPerHour + 1
  {
    BackAndForth(limits, Refunding(LowRisk, Nothing, 0));
  }

  /** One operation with the hour before leaves the current hour's count behind. */
  lemma BackAndForth(limits: Limits, stale: Op)
    requires 1 <= limits.lowRiskPerHour && stale.now == 0 && stale.risk.LowRisk? && stale.scope.Nothing?
    ensures Outstanding(limits, Fill(limits.lowRiskPerHour) + [stale, LOW], LowRiskHour, 1) == limits.lowRiskPerHour + 1
  {
    hide Fill, Outstanding, Play;
    var fill := Fill(limits.lowRiskPerHour);
    FillConsumes(limits, limits.lowRiskPerHour);
    StaleStep(limits, fill, stale);
    FillStep(limits, fill + [stale]);
    assert fill + [stale] + [LOW] == fill + [stale, LOW];
  }

  lemma StaleStep(limits: Limits, ops: seq<Op>, stale: Op)
    requires 1 <= limits.lowRiskPerHour && stale.now == 0 && stale.risk.LowRisk? && stale.scope.Nothing?
    requires Play(limits, ops).lowRiskHour.Some? && Play(limits, ops).lowRiskHour.value.anchor == 1
    ensures Rolled(Play(limits, ops + [stale]).lowRiskHour, 1) == 0
    ensures Outstanding(limits, ops + [stale], LowRiskHour, 1) == Outstanding(limits, ops, LowRiskHour, 1)
  {
    assert (ops + [stale])[..|ops|] == ops;
  }

  /**
   * A refund is not needed: a plan reads the clock before it waits for the gate, so its reservation can
   * arrive with an hour already left, and then the next one starts the current hour afresh.
   */
  lemma StaleReservationBreaksTheCap(limits: Limits)
    requires 1 <= limits.lowRiskPerHour
    ensures var ops := Fill(limits.lowRiskPerHour) + [Reserving(LowRisk, Nothing, 0), LOW];
            Outstanding(limits, ops, LowRiskHour, 1) == limits.lowRiskPerHour + 1
  {
    BackAndForth(limits, Reserving(LowRisk, Nothing, 0));
  }

  // ---------------------------------------------------------------- the gate object

  class Gate {
    const limits: Limits
    var windows: Windows

    constructor (limits: Limits)
      ensures this.limits == limits && windows == EMPTY
    {
      this.limits := limits;
      windows := EMPTY;
    }

    method Reserve(risk: RiskClass, scope: BlastRadius, now: int) returns (reserved: bool)
      modifies this
      ensures (reserved, windows) == ReserveIn(old(windows), limits, risk, scope, now)
    {
      var hour, day := HourIndex(now), DayIndex(now);
      if risk.LowRisk? {
        windows := windows.(lowRiskHour := Some(Window(hour, Rolled(windows.lowRiskHour, hour))));
        if Rolled(windows.lowRiskHour, hour) >= limits.lowRiskPerHour {
          return false;
        }
      }
      if risk.Controlled? {
        windows := windows.(controlledDay := Some(Window(day, Rolled(windows.controlledDay, day))));
        if Rolled(windows.controlledDay, day) >= limits.controlledPerDay {
          return false;
        }
      }
      if scope.Host? {
        windows := windows.(hostScopeDay := Some(Window(day, Rolled(windows.hostScopeDay, day))));
        if Rolled(windows.hostScopeDay, day) >= limits.hostScopePerDay {
          return false;
        }
      }
      windows := Windows(Bump(windows.lowRiskHour, hour, risk.LowRisk?),
                         Bump(windows.controlledDay, day, risk.Controlled?),
                         Bump(windows.hostScopeDay, day, scope.Host?));
      return true;
    }

    method Refund(risk: RiskClass, scope: BlastRadius, now: int)
      modifies this
      ensures windows == RefundIn(old(windows), risk, scope, now)
    {
      windows := Windows(Surrendered(windows.lowRiskHour, HourIndex(now), risk.LowRisk?),
                         Surrendered(windows.controlledDay, DayIndex(now), risk.Controlled?),
                         Surrendered(windows.hostScopeDay, DayIndex(now), scope.Host?));
    }
  }
}
