/** Folding events into situations by correlation key and time window. */
module Correlator {
  import opened Domain

  datatype Event = Event(id: nat, key: string, at: int)

  datatype Situation = Situation(
    id: nat,
    key: string,
    members: seq<nat>,
    confidence: real,
    firstSeen: int,
    lastSeen: int)

  datatype State = State(open: map<string, Situation>, closed: seq<Situation>)

  function Confidence(members: nat): real {
    1.0 - 1.0 / (members as real + 1.0)
  }

  // ---------------------------------------------------------------- steps

  predicate Joins(st: State, window: int, event: Event) {
    event.key in st.open && event.at - st.open[event.key].lastSeen <= window
  }

  function Join(s: Situation, event: Event): Situation {
    s.(members := s.members + [event.id], lastSeen := event.at, confidence := Confidence(|s.members| + 1))
  }

  function Begin(event: Event, id: nat): Situation {
    Situation(id, event.key, [event.id], Confidence(1), event.at, event.at)
  }

  /** Moves the open situation of a key, if any, to the closed list. */
  function CloseKey(st: State, key: string): State {
    if key in st.open then State(st.open - {key}, st.closed + [st.open[key]]) else st
  }

  function Open(st: State, event: Event, id: nat): State {
    st.(open := st.open[event.key := Begin(event, id)])
  }

  function IngestStep(st: State, window: int, event: Event, newId: nat): State {
    if Joins(st, window, event) then st.(open := st.open[event.key := Join(st.open[event.key], event)])
    else Open(CloseKey(st, event.key), event, newId)
  }

  /** The id `ingest` returns. */
  function JoinedId(st: State, window: int, event: Event, newId: nat): nat {
    if Joins(st, window, event) then st.open[event.key].id else newId
  }

  ghost predicate OpenWithId(st: State, id: nat, key: string) {
    key in st.open && st.open[key].id == id
  }

  ghost function CloseStep(st: State, id: nat): State {
    if exists key :: OpenWithId(st, id, key) then
      var key :| OpenWithId(st, id, key);
      CloseKey(st, key)
    else st
  }

  // ---------------------------------------------------------------- the invariant

  /** An ingested event and the situation id it was answered with. */
  datatype Entry = Entry(event: Event, situation: nat)

  /** The events answered with one id, in order of arrival. */
  ghost function Trail(log: seq<Entry>, id: nat): seq<Event> {
    if log == [] then []
    else
      var n := |log| - 1;
      Trail(log[..n], id) + (if log[n].situation == id then [log[n].event] else [])
  }

  ghost predicate Ids(members: seq<nat>, trail: seq<Event>) {
    |members| == |trail| && forall i :: 0 <= i < |trail| ==> members[i] == trail[i].id
  }

  ghost predicate WithinWindow(trail: seq<Event>, window: int) {
    forall i :: 0 < i < |trail| ==> trail[i].at - trail[i - 1].at <= window
  }

  /** A situation tells exactly the events answered with its id. */
  ghost predicate Tells(s: Situation, trail: seq<Event>, window: int) {
    && trail != []
    && Ids(s.members, trail)
    && (forall e <- trail :: e.key == s.key)
    && WithinWindow(trail, window)
    && s.firstSeen == trail[0].at && s.lastSeen == trail[|trail| - 1].at
    && s.confidence == Confidence(|trail|)
  }

  ghost predicate Held(st: State, s: Situation) {
    s in st.closed || (s.key in st.open && st.open[s.key] == s)
  }

  ghost predicate DistinctIds(st: State) {
    && (forall i, j :: 0 <= i < j < |st.closed| ==> st.closed[i].id != st.closed[j].id)
    && (forall i, k :: 0 <= i < |st.closed| && k in st.open ==> st.closed[i].id != st.open[k].id)
    && (forall k, l :: k in st.open && l in st.open && k != l ==> st.open[k].id != st.open[l].id)
  }

  ghost predicate Known(st: State, id: nat) {
    exists s :: Held(st, s) && s.id == id
  }

  ghost predicate Inv(st: State, window: int, log: seq<Entry>) {
    && (forall k :: k in st.open ==> st.open[k].key == k)
    && DistinctIds(st)
    && (forall s :: Held(st, s) ==> Tells(s, Trail(log, s.id), window))
    && (forall e <- log :: Known(st, e.situation))
  }

  lemma TrailAppend(log: seq<Entry>, e: Entry, id: nat)
    ensures Trail(log + [e], id) == if e.situation == id then Trail(log, id) + [e.event] else Trail(log, id)
  {
    assert (log + [e])[..|log|] == log;
  }

  lemma {:induction false} TrailNames(log: seq<Entry>, id: nat, event: Event)
    ensures event in Trail(log, id) <==> Entry(event, id) in log
  {
    if log != [] {
      TrailNames(log[..|log| - 1], id, event);
      assert log == log[..|log| - 1] + [log[|log| - 1]];
    }
  }

  lemma {:induction false} TrailOfUnused(log: seq<Entry>, id: nat)
    requires forall e <- log :: e.situation != id
    ensures Trail(log, id) == []
  {
    if log != [] {
      TrailOfUnused(log[..|log| - 1], id);
    }
  }

  lemma CloseKeyKeeps(st: State, window: int, log: seq<Entry>, key: string)
    requires Inv(st, window, log)
    ensures Inv(CloseKey(st, key), window, log)
    ensures forall s :: Held(CloseKey(st, key), s) <==> Held(st, s)
  {
    hide Tells, Trail;
    var next := CloseKey(st, key);
    forall s ensures Held(next, s) <==> Held(st, s) {
    }
    forall e <- log ensures Known(next, e.situation) {
      var s :| Held(st, s) && s.id == e.situation;
      assert Held(next, s);
    }
  }

  lemma JoinTells(s: Situation, trail: seq<Event>, window: int, event: Event)
    requires Tells(s, trail, window) && event.key == s.key && event.at - s.lastSeen <= window
    ensures Tells(Join(s, event), trail + [event], window)
  {
  }

  lemma HeldIdsDistinct(st: State, a: Situation, b: Situation)
    requires DistinctIds(st) && Held(st, a) && Held(st, b) && a.id == b.id
    ensures a == b
  {
  }

  lemma OtherHeld(st: State, window: int, event: Event, newId: nat, s: Situation)
    requires DistinctIds(st) && Joins(st, window, event)
    requires forall k :: k in st.open ==> st.open[k].key == k
    requires Held(IngestStep(st, window, event, newId), s) && s != Join(st.open[event.key], event)
    ensures Held(st, s) && s.id != st.open[event.key].id
  {
  }

  lemma JoinKeeps(st: State, window: int, log: seq<Entry>, event: Event, newId: nat)
    requires Inv(st, window, log) && Joins(st, window, event)
    ensures Inv(IngestStep(st, window, event, newId), window, log + [Entry(event, st.open[event.key].id)])
  {
    hide Tells, Trail;
    var next := IngestStep(st, window, event, newId);
    var was := st.open[event.key];
    var e := Entry(event, was.id);
    assert Held(st, was);
    forall s | Held(next, s) ensures Tells(s, Trail(log + [e], s.id), window) {
      TrailAppend(log, e, s.id);
      if s == Join(was, event) {
        JoinTells(was, Trail(log, was.id), window, event);
      } else {
        OtherHeld(st, window, event, newId, s);
      }
    }
    forall x <- log + [e] ensures Known(next, x.situation) {
      assert Held(next, Join(was, event));
      if x.situation != was.id {
        var s :| Held(st, s) && s.id == x.situation;
        assert Held(next, s);
      }
    }
  }

  lemma OpenKeeps(st: State, window: int, log: seq<Entry>, event: Event, newId: nat)
    requires Inv(st, window, log) && event.key !in st.open
    requires forall e <- log :: e.situation != newId
    ensures Inv(Open(st, event, newId), window, log + [Entry(event, newId)])
  {
    var next := Open(st, event, newId);
    var e, s0 := Entry(event, newId), Begin(event, newId);
    hide Tells, Trail, DistinctIds;
    HeldIdsAreLogged(st, window, log, newId);
    TrailOfUnused(log, newId);
    OpenIdsDistinct(st, event, newId);
    BeginTells(event, newId, window);
    forall s | Held(next, s) ensures Tells(s, Trail(log + [e], s.id), window) {
      TrailAppend(log, e, s.id);
    }
    forall x <- log + [e] ensures Known(next, x.situation) {
      assert Held(next, s0);
      if x.situation != newId {
        var s :| Held(st, s) && s.id == x.situation;
        assert Held(next, s);
      }
    }
  }

  lemma BeginTells(event: Event, id: nat, window: int)
    ensures Tells(Begin(event, id), [] + [event], window)
  {
  }

  lemma HeldIdsAreLogged(st: State, window: int, log: seq<Entry>, id: nat)
    requires Inv(st, window, log) && forall e <- log :: e.situation != id
    ensures forall s :: Held(st, s) ==> s.id != id
  {
    hide DistinctIds, Trail;
    forall s | Held(st, s) ensures s.id != id {
      TrailNames(log, s.id, Trail(log, s.id)[0]);
    }
  }

  lemma OpenIdsDistinct(st: State, event: Event, newId: nat)
    requires DistinctIds(st) && event.key !in st.open
    requires forall k :: k in st.open ==> st.open[k].key == k
    requires forall s :: Held(st, s) ==> s.id != newId
    ensures DistinctIds(Open(st, event, newId))
  {
    assert forall k :: k in st.open ==> Held(st, st.open[k]);
    assert forall i :: 0 <= i < |st.closed| ==> Held(st, st.closed[i]);
  }

  /** Ingesting keeps the invariant, whichever way the event goes. */
  lemma IngestKeeps(st: State, window: int, log: seq<Entry>, event: Event, newId: nat)
    requires Inv(st, window, log)
    requires forall e <- log :: e.situation != newId
    ensures Inv(IngestStep(st, window, event, newId), window, log + [Entry(event, JoinedId(st, window, event, newId))])
  {
    hide Inv;
    if Joins(st, window, event) {
      JoinKeeps(st, window, log, event, newId);
    } else {
      CloseKeyKeeps(st, window, log, event.key);
      OpenKeeps(CloseKey(st, event.key), window, log, event, newId);
    }
  }

  lemma CloseKeeps(st: State, window: int, log: seq<Entry>, id: nat)
    requires Inv(st, window, log)
    ensures Inv(CloseStep(st, id), window, log)
  {
    hide Inv;
    if exists key :: OpenWithId(st, id, key) {
      var key :| OpenWithId(st, id, key) && CloseStep(st, id) == CloseKey(st, key);
      CloseKeyKeeps(st, window, log, key);
    }
  }

  // ---------------------------------------------------------------- whole runs

  datatype Op = Ingest(event: Event, newId: nat) | Close(id: nat)

  ghost function Run(window: int, ops: seq<Op>): State {
    if ops == [] then State(map[], [])
    else
      var n := |ops| - 1;
      match ops[n]
      case Ingest(event, newId) => IngestStep(Run(window, ops[..n]), window, event, newId)
      case Close(id) => CloseStep(Run(window, ops[..n]), id)
  }

  ghost function Log(window: int, ops: seq<Op>): seq<Entry> {
    if ops == [] then []
    else
      var n := |ops| - 1;
      Log(window, ops[..n]) +
      (match ops[n]
       case Ingest(event, newId) => [Entry(event, JoinedId(Run(window, ops[..n]), window, event, newId))]
       case Close(_) => [])
  }

  /** Every newly drawn situation id is fresh. */
  ghost predicate FreshIds(ops: seq<Op>) {
    forall i, j :: 0 <= i < j < |ops| && ops[i].Ingest? && ops[j].Ingest? ==> ops[i].newId != ops[j].newId
  }

  ghost predicate DistinctEvents(ops: seq<Op>) {
    forall i, j :: 0 <= i < j < |ops| && ops[i].Ingest? && ops[j].Ingest? ==> ops[i].event.id != ops[j].event.id
  }

  ghost predicate Drawn(ops: seq<Op>, id: nat) {
    exists j :: 0 <= j < |ops| && ops[j].Ingest? && ops[j].newId == id
  }

  /** Over every sequence of ingests and closes the invariant holds of the events answered so far. */
  lemma {:induction false} EveryRunTells(window: int, ops: seq<Op>)
    requires FreshIds(ops)
    ensures Inv(Run(window, ops), window, Log(window, ops))
    ensures forall e <- Log(window, ops) :: Drawn(ops, e.situation)
  {
    if ops != [] {
      hide IngestStep, CloseStep, DistinctIds, Tells, Trail;
      var n := |ops| - 1;
      var before, st, log := ops[..n], Run(window, ops[..n]), Log(window, ops[..n]);
      EveryRunTells(window, before);
      forall e <- log ensures Drawn(ops, e.situation) && (ops[n].Ingest? ==> e.situation != ops[n].newId) {
        var j :| 0 <= j < n && before[j].Ingest? && before[j].newId == e.situation;
        assert ops[j] == before[j];
      }
      match ops[n] {
        case Ingest(event, newId) =>
          IngestKeeps(st, window, log, event, newId);
          JoinedIdDrawn(st, window, ops, log, event, newId);
        case Close(id) =>
          CloseKeeps(st, window, log, id);
          assert log + [] == log;
      }
    }
  }

  lemma JoinedIdDrawn(st: State, window: int, ops: seq<Op>, log: seq<Entry>, event: Event, newId: nat)
    requires ops != [] && ops[|ops| - 1] == Ingest(event, newId)
    requires Inv(st, window, log) && forall e <- log :: Drawn(ops, e.situation)
    ensures Drawn(ops, JoinedId(st, window, event, newId))
  {
    if Joins(st, window, event) {
      var s := st.open[event.key];
      assert Held(st, s);
      hide Trail;
      TrailNames(log, s.id, Trail(log, s.id)[0]);
    }
  }

  /** The id that the i-th operation, an ingest, answered with. */
  ghost function Answer(window: int, ops: seq<Op>, i: nat): nat
    requires i < |ops| && ops[i].Ingest?
  {
    JoinedId(Run(window, ops[..i]), window, ops[i].event, ops[i].newId)
  }

  lemma {:induction false} LogRecords(window: int, ops: seq<Op>, i: nat)
    requires i < |ops| && ops[i].Ingest?
    ensures Entry(ops[i].event, Answer(window, ops, i)) in Log(window, ops)
  {
    hide Run, JoinedId;
    var n := |ops| - 1;
    if i < n {
      LogRecords(window, ops[..n], i);
      assert ops[..n][..i] == ops[..i];
    }
  }

  lemma {:induction false} LogComesFrom(window: int, ops: seq<Op>, e: Entry)
    requires e in Log(window, ops)
    ensures exists i :: 0 <= i < |ops| && ops[i].Ingest? && e == Entry(ops[i].event, Answer(window, ops, i))
  {
    hide Run, JoinedId;
    var n := |ops| - 1;
    var before := ops[..n];
    if e in Log(window, before) {
      LogComesFrom(window, before, e);
      var i :| 0 <= i < n && before[i].Ingest? && e == Entry(before[i].event, Answer(window, before, i));
      assert before[..i] == ops[..i] && before[i] == ops[i];
    } else {
      assert ops[n].Ingest? && ops[n].event == e.event;
    }
  }

  /**
   * Each ingested event is a member of exactly one situation, the one its ingest answered with, which
   * can still be found; it shares the event's key.
   */
  lemma EachEventInOneSituation(window: int, ops: seq<Op>, i: nat) returns (home: Situation)
    requires FreshIds(ops) && DistinctEvents(ops) && i < |ops| && ops[i].Ingest?
    ensures home.id == Answer(window, ops, i)
    ensures Held(Run(window, ops), home) && home.key == ops[i].event.key
    ensures forall s :: Held(Run(window, ops), s) ==> (ops[i].event.id in s.members <==> s == home)
  {
    hide JoinedId, Run, Log, Trail, DistinctIds;
    var st, log, event := Run(window, ops), Log(window, ops), ops[i].event;
    EveryRunTells(window, ops);
    LogRecords(window, ops, i);
    var id := Answer(window, ops, i);
    assert Known(st, id);
    home :| Held(st, home) && home.id == id;
    TrailNames(log, id, event);
    forall s | Held(st, s) ensures event.id in s.members <==> s == home {
      if event.id in s.members {
        var k :| 0 <= k < |s.members| && s.members[k] == event.id;
        var other := Trail(log, s.id)[k];
        TrailNames(log, s.id, other);
        SameEventSameSituation(window, ops, i, Entry(other, s.id));
        HeldIdsDistinct(st, s, home);
      }
    }
  }

  lemma SameEventSameSituation(window: int, ops: seq<Op>, i: nat, e: Entry)
    requires DistinctEvents(ops) && i < |ops| && ops[i].Ingest?
    requires e in Log(window, ops) && e.event.id == ops[i].event.id
    ensures e.situation == Answer(window, ops, i)
  {
    hide JoinedId, Run, Log;
    LogComesFrom(window, ops, e);
    var j :| 0 <= j < |ops| && ops[j].Ingest? && e == Entry(ops[j].event, Answer(window, ops, j));
    assert i == j;
  }

  /** Between two operations, nothing touches a key or closes its situation. */
  ghost predicate Quiet(ops: seq<Op>, i: nat, n: nat, key: string, id: nat)
    requires n <= |ops|
  {
    forall k :: i < k < n ==> if ops[k].Ingest? then ops[k].event.key != key else ops[k].id != id
  }

  lemma {:induction false} StaysOpen(window: int, ops: seq<Op>, i: nat, n: nat)
    requires i < n <= |ops| && ops[i].Ingest?
    requires Quiet(ops, i, n, ops[i].event.key, Answer(window, ops, i))
    ensures var st, key := Run(window, ops[..n]), ops[i].event.key;
            key in st.open && st.open[key].id == Answer(window, ops, i) && st.open[key].lastSeen == ops[i].event.at
  {
    assert ops[..n][..n - 1] == ops[..n - 1] && ops[..n][n - 1] == ops[n - 1];
    if i < n - 1 {
      hide JoinedId, Joins;
      StaysOpen(window, ops, i, n - 1);
    }
  }

  /** Of two successive events of one key, with no close between, the later joins the earlier exactly within the window. */
  lemma NeighboursJoinIff(window: int, ops: seq<Op>, i: nat, j: nat)
    requires FreshIds(ops) && i < j < |ops| && ops[i].Ingest? && ops[j].Ingest?
    requires ops[i].event.key == ops[j].event.key
    requires Quiet(ops, i, j, ops[i].event.key, Answer(window, ops, i))
    ensures Answer(window, ops, i) == Answer(window, ops, j) <==> ops[j].event.at - ops[i].event.at <= window
  {
    StaysOpen(window, ops, i, j);
    hide Run;
    var before := ops[..j];
    EveryRunTells(window, before);
    LogRecords(window, before, i);
    assert before[..i] == ops[..i];
    assert Drawn(before, Answer(window, ops, i));
  }

  lemma CloseStepAppends(st: State, id: nat)
    ensures st.closed <= CloseStep(st, id).closed
  {
  }

  /** What has been closed is never changed or reopened. */
  lemma {:induction false} ClosedIsFinal(window: int, ops: seq<Op>, n: nat)
    requires n <= |ops|
    ensures Run(window, ops[..n]).closed <= Run(window, ops).closed
  {
    hide CloseStep;
    if n < |ops| {
      var k := |ops| - 1;
      ClosedIsFinal(window, ops[..k], n);
      assert ops[..k][..n] == ops[..n];
      if ops[k].Close? {
        CloseStepAppends(Run(window, ops[..k]), ops[k].id);
      }
    } else {
      assert ops[..n] == ops;
    }
  }

  /** Confidence is n parts in n + 1: it grows strictly with every corroborating member and never reaches certainty. */
  lemma ConfidenceGrows(few: nat, many: nat)
    requires few < many
    ensures 0.0 <= Confidence(few) < Confidence(many) < 1.0
    ensures Confidence(many) * (many as real + 1.0) == many as real
  {
    var a, b := few as real + 1.0, many as real + 1.0;
    assert 1.0 / a - 1.0 / b == (b - a) / (a * b);
    assert 0.0 < 1.0 / b;
    assert 1.0 / a <= 1.0;
  }

  // ---------------------------------------------------------------- the object

  class Correlator {
    var open: map<string, Situation>
    var closed: seq<Situation>
    const window: int
    ghost var log: seq<Entry>

    ghost function Now(): State
      reads this
    {
      State(open, closed)
    }

    ghost predicate Valid()
      reads this
    {
      Inv(Now(), window, log)
    }

    constructor (window: int)
      ensures Valid() && this.window == window && Now() == State(map[], []) && log == []
    {
      this.open := map[];
      this.closed := [];
      this.window := window;
      this.log := [];
    }

    /** `newId` is the identifier drawn should a new situation begin. */
    method Ingest(event: Event, newId: nat) returns (id: nat)
      requires Valid() && forall e <- log :: e.situation != newId
      modifies this
      ensures Valid() && Now() == IngestStep(old(Now()), window, event, newId)
      ensures id == JoinedId(old(Now()), window, event, newId)
      ensures log == old(log) + [Entry(event, id)]
    {
      hide Inv;
      IngestKeeps(Now(), window, log, event, newId);
      if event.key in open && event.at - open[event.key].lastSeen <= window {
        var joined := open[event.key];
        joined := joined.(members := joined.members + [event.id], lastSeen := event.at);
        joined := joined.(confidence := Confidence(|joined.members|));
        open := open[event.key := joined];
        id := joined.id;
      } else {
        if event.key in open {
          var previous := open[event.key];
          open := open - {event.key};
          closed := closed + [previous];
        }
        open := open[event.key := Situation(newId, event.key, [event.id], Confidence(1), event.at, event.at)];
        id := newId;
      }
      log := log + [Entry(event, id)];
    }

    method FindOpen(id: nat) returns (found: Option<Situation>)
      requires Valid()
      ensures found.Some? ==> OpenWithId(Now(), id, found.value.key) && open[found.value.key] == found.value
      ensures found.None? ==> forall key :: !OpenWithId(Now(), id, key)
    {
      hide DistinctIds, Tells, Trail;
      var rest := open.Keys;
      while rest != {}
        invariant rest <= open.Keys
        invariant forall key :: key in open && key !in rest ==> open[key].id != id
        decreases rest
      {
        var key :| key in rest;
        if open[key].id == id {
          return Some(open[key]);
        }
        rest := rest - {key};
      }
      return None;
    }

    /** Finds the one situation with an id, open or closed; every id ever answered is found. */
    method FindSituation(id: nat) returns (found: Option<Situation>)
      requires Valid()
      ensures found.Some? ==> Held(Now(), found.value) && found.value.id == id
      ensures found.None? ==> forall s :: Held(Now(), s) ==> s.id != id
      ensures (exists e <- log :: e.situation == id) ==> found.Some?
    {
      hide DistinctIds, Tells, Trail;
      found := FindOpen(id);
      if found.Some? {
        return;
      }
      for i := 0 to |closed|
        invariant found.None?
        invariant forall j :: 0 <= j < i ==> closed[j].id != id
      {
        if closed[i].id == id {
          return Some(closed[i]);
        }
      }
      forall s | Held(Now(), s) ensures s.id != id {
        assert !OpenWithId(Now(), id, s.key);
      }
    }

    method Close(id: nat) returns (r: Option<Situation>)
      requires Valid()
      modifies this
      ensures Valid() && Now() == CloseStep(old(Now()), id) && log == old(log)
      ensures r.Some? ==> old(OpenWithId(Now(), id, r.value.key)) && closed == old(closed) + [r.value]
      ensures r.None? ==> Now() == old(Now()) && forall key :: !OpenWithId(Now(), id, key)
    {
      r := FindOpen(id);
      CloseKeeps(Now(), window, log, id);
      if r.Some? {
        var key := r.value.key;
        CloseStepAt(Now(), id, key);
        hide Inv, CloseStep;
        open, closed := open - {key}, closed + [open[key]];
      }
    }
  }

  lemma CloseStepAt(st: State, id: nat, key: string)
    requires DistinctIds(st) && OpenWithId(st, id, key)
    ensures CloseStep(st, id) == CloseKey(st, key)
  {
  }
}
