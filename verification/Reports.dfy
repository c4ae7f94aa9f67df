/** The bounded report queue: oldest-first discard, at-least-once delivery, every loss counted. */
module Reports {
  import opened Domain

  const U64_MAX: nat := 0xFFFF_FFFF_FFFF_FFFF

  /** `id` numbers the reports in the order they were enqueued. */
  datatype Report = Report(id: nat, payload: string, attempts: nat)

  datatype Queue = Queue(capacity: nat, entries: seq<Report>, droppedTotal: nat)

  function Enqueued(q: Queue, report: Report): Queue
    requires q.capacity >= 1
  {
    if |q.entries| >= q.capacity then
      q.(entries := q.entries[1..] + [report], droppedTotal := Saturate(q.droppedTotal + 1, U64_MAX))
    else q.(entries := q.entries + [report])
  }

  function Attempted(batch: seq<Report>): (r: seq<Report>)
    ensures |r| == |batch|
    ensures forall k :: 0 <= k < |r| ==> r[k] == batch[k].(attempts := Saturate(batch[k].attempts + 1, U32_MAX))
  {
    seq(|batch|, k requires 0 <= k < |batch| => batch[k].(attempts := Saturate(batch[k].attempts + 1, U32_MAX)))
  }

  function Take(q: Queue, limit: nat): nat {
    if limit < |q.entries| then limit else |q.entries|
  }

  function Drained(q: Queue, limit: nat): Queue {
    q.(entries := q.entries[Take(q, limit)..])
  }

  function Excess(q: Queue, batch: seq<Report>): nat {
    if |batch + q.entries| > q.capacity then |batch + q.entries| - q.capacity else 0
  }

  function Requeued(q: Queue, batch: seq<Report>): Queue {
    q.(entries := (batch + q.entries)[Excess(q, batch)..],
    droppedTotal := Saturate(q.droppedTotal + Excess(q, batch), U64_MAX))
  }

  class ReportQueue {
    const capacity: nat
    var entries: seq<Report>
    var droppedTotal: nat
    var lastDrainAt: Option<int>

    ghost predicate Valid()
      reads this
    {
      capacity >= 1 && droppedTotal <= U64_MAX
    }

    ghost function Contents(): Queue
      reads this
    {
      Queue(capacity, entries, droppedTotal)
    }

    constructor (capacity: nat)
      ensures Valid() && Contents() == Queue(if capacity == 0 then 1 else capacity, [], 0) && lastDrainAt == None
    {
      this.capacity := if capacity == 0 then 1 else capacity;
      entries, droppedTotal, lastDrainAt := [], 0, None;
    }

    method Enqueue(report: Report) returns (discarded: Option<Report>)
      requires Valid()
      modifies this
      ensures Valid() && Contents() == Enqueued(old(Contents()), report) && lastDrainAt == old(lastDrainAt)
      ensures discarded == if |old(entries)| >= capacity then Some(old(entries)[0]) else None
      ensures entries == (if |old(entries)| >= capacity then old(entries)[1..] else old(entries)) + [report]
    {
      discarded := None;
      if |entries| >= capacity {
        discarded := Some(entries[0]);
        entries := entries[1..];
        droppedTotal := Saturate(droppedTotal + 1, U64_MAX);
      }
      entries := entries + [report];
    }

    method Drain(limit: nat, at: int) returns (taken: seq<Report>)
      requires Valid()
      modifies this
      ensures Valid() && Contents() == Drained(old(Contents()), limit)
      ensures taken == Attempted(old(entries)[..Take(old(Contents()), limit)])
      ensures |taken| == (if limit < |old(entries)| then limit else |old(entries)|) && entries == old(entries)[|taken|..]
      ensures lastDrainAt == if taken == [] then old(lastDrainAt) else Some(at)
    {
      var take := if limit < |entries| then limit else |entries|;
      taken := Attempted(entries[..take]);
      entries := entries[take..];
      if taken != [] {
        lastDrainAt := Some(at);
      }
    }

    method RequeueFront(batch: seq<Report>)
      requires Valid()
      modifies this
      ensures Valid() && Contents() == Requeued(old(Contents()), batch) && lastDrainAt == old(lastDrainAt)
    {
      var i := |batch|;
      while i > 0
        invariant 0 <= i <= |batch|
        invariant entries == batch[i..] + old(entries) && droppedTotal == old(droppedTotal) && lastDrainAt == old(lastDrainAt)
      {
        i := i - 1;
        entries := [batch[i]] + entries;
      }
      ghost var all := batch + old(entries);
      ghost var n := 0;
      while |entries| > capacity
        invariant n <= Excess(old(Contents()), batch) && entries == all[n..]
        invariant droppedTotal == Saturate(old(droppedTotal) + n, U64_MAX) && lastDrainAt == old(lastDrainAt)
        decreases |entries|
      {
        entries := entries[1..];
        droppedTotal := Saturate(droppedTotal + 1, U64_MAX);
        n := n + 1;
      }
    }
  }

  // ---------------------------------------------------------------- runs

  /** The queue with everything that ever happened to its reports. */
  datatype System = System(queue: Queue, inFlight: seq<Report>, delivered: set<nat>, dropped: set<nat>, next: nat)

  datatype Op = Enqueue(payload: string) | Drain(limit: nat) | Acknowledge | Requeue

  function Ids(s: seq<Report>): (r: seq<nat>)
    ensures |r| == |s| && forall k :: 0 <= k < |r| ==> r[k] == s[k].id
  {
    seq(|s|, k requires 0 <= k < |s| => s[k].id)
  }

  function SetOf(s: seq<nat>): set<nat> {
    set x | x in s
  }

  /** A batch is acknowledged or requeued before the next one is drained. */
  predicate Allowed(s: System, op: Op) {
    op.Drain? ==> s.inFlight == []
  }

  function Next(s: System, op: Op): System
    requires s.queue.capacity >= 1
  {
    match op
    case Enqueue(payload) =>
      var full := |s.queue.entries| >= s.queue.capacity;
      s.(queue := Enqueued(s.queue, Report(s.next, payload, 0)),
      dropped := if full then s.dropped + {s.queue.entries[0].id} else s.dropped,
      next := s.next + 1)
    case Drain(limit) =>
      s.(queue := Drained(s.queue, limit), inFlight := Attempted(s.queue.entries[..Take(s.queue, limit)]))
    case Acknowledge => s.(inFlight := [], delivered := s.delivered + SetOf(Ids(s.inFlight)))
    case Requeue =>
      s.(queue := Requeued(s.queue, s.inFlight),
      dropped := s.dropped + SetOf(Ids(s.inFlight + s.queue.entries)[..Excess(s.queue, s.inFlight)]),
      inFlight := [])
  }

  predicate Increasing(s: seq<nat>) {
    forall j, k :: 0 <= j < k < |s| ==> s[j] < s[k]
  }

  /** In flight, then held: what the daemon still has, oldest first. */
  function Custody(s: System): seq<Report> {
    s.inFlight + s.queue.entries
  }

  /** The ids below `next` are split between what is kept, in order and once each, and two disjoint fates. */
  ghost predicate Partition(kept: seq<nat>, delivered: set<nat>, dropped: set<nat>, next: nat) {
    && Increasing(kept)
    && delivered !! dropped
    && (forall k :: 0 <= k < |kept| ==> kept[k] < next && kept[k] !in delivered && kept[k] !in dropped)
    && (forall id: nat :: id in delivered || id in dropped ==> id < next)
    && (forall id: nat :: id < next ==> id in delivered || id in dropped || id in kept)
  }

  /** Every report is in exactly one place, in enqueue order, within capacity, and every loss is counted. */
  ghost predicate Accounted(s: System) {
    && s.queue.capacity >= 1 && |s.queue.entries| <= s.queue.capacity
    && Partition(Ids(Custody(s)), s.delivered, s.dropped, s.next)
    && s.queue.droppedTotal == Saturate(|s.dropped|, U64_MAX)
  }

  lemma PartitionAppend(kept: seq<nat>, delivered: set<nat>, dropped: set<nat>, next: nat)
    requires Partition(kept, delivered, dropped, next)
    ensures Partition(kept + [next], delivered, dropped, next + 1)
  {
  }

  lemma PartitionRemove(kept: seq<nat>, delivered: set<nat>, dropped: set<nat>, next: nat, m: nat)
    requires Partition(kept, delivered, dropped, next) && m < |kept|
    ensures Partition(kept[..m] + kept[m + 1..], delivered, dropped + {kept[m]}, next)
    ensures |dropped + {kept[m]}| == |dropped| + 1
  {
    assert kept == kept[..m] + [kept[m]] + kept[m + 1..];
  }

  lemma PartitionSplit(kept: seq<nat>, delivered: set<nat>, dropped: set<nat>, next: nat, n: nat)
    requires Partition(kept, delivered, dropped, next) && n <= |kept|
    ensures Partition(kept[n..], delivered, dropped + SetOf(kept[..n]), next)
    ensures Partition(kept[n..], delivered + SetOf(kept[..n]), dropped, next)
    ensures |dropped + SetOf(kept[..n])| == |dropped| + n
  {
    assert kept == kept[..n] + kept[n..];
    CountIncreasing(kept[..n]);
    assert dropped !! SetOf(kept[..n]);
  }

  lemma SetOfSnoc(s: seq<nat>, x: nat)
    ensures SetOf(s + [x]) == SetOf(s) + {x}
    ensures x in SetOf(s) <==> x in s
  {
  }

  lemma InitIncreasing(s: seq<nat>, n: nat)
    requires Increasing(s) && n < |s|
    ensures Increasing(s[..n]) && s[n] !in s[..n]
  {
  }

  lemma {:induction false} CountIncreasing(s: seq<nat>)
    requires Increasing(s)
    ensures |SetOf(s)| == |s|
  {
    if s == [] {
      assert SetOf(s) == {};
    } else {
      hide Increasing, SetOf;
      var n := |s| - 1;
      InitIncreasing(s, n);
      CountIncreasing(s[..n]);
      SetOfSnoc(s[..n], s[n]);
      assert s == s[..n] + [s[n]];
    }
  }

  lemma EnqueueAccounts(s: System, payload: string)
    requires Accounted(s)
    ensures Accounted(Next(s, Enqueue(payload)))
  {
    hide Partition;
    var s1 := Next(s, Enqueue(payload));
    var kept, kept1, m := Ids(Custody(s)), Ids(Custody(s1)), |s.inFlight|;
    PartitionAppend(kept, s.delivered, s.dropped, s.next);
    if |s.queue.entries| >= s.queue.capacity {
      PartitionRemove(kept + [s.next], s.delivered, s.dropped, s.next + 1, m);
      assert kept1 == (kept + [s.next])[..m] + (kept + [s.next])[m + 1..];
    } else {
      assert kept1 == kept + [s.next];
    }
  }

  lemma RequeueAccounts(s: System)
    requires Accounted(s)
    ensures Accounted(Next(s, Requeue))
  {
    hide Partition, SetOf;
    var kept, excess := Ids(Custody(s)), Excess(s.queue, s.inFlight);
    PartitionSplit(kept, s.delivered, s.dropped, s.next, excess);
    assert Ids(Custody(Next(s, Requeue))) == kept[excess..];
  }

  /** One allowed operation keeps the books. */
  lemma NextAccounts(s: System, op: Op)
    requires Accounted(s) && Allowed(s, op)
    ensures Accounted(Next(s, op))
  {
    hide Partition, SetOf;
    var kept, m := Ids(Custody(s)), |s.inFlight|;
    match op
    case Enqueue(payload) => EnqueueAccounts(s, payload);
    case Drain(limit) => assert Ids(Custody(Next(s, op))) == kept;
    case Acknowledge =>
      PartitionSplit(kept, s.delivered, s.dropped, s.next, m);
      assert Ids(Custody(Next(s, op))) == kept[m..] && Ids(s.inFlight) == kept[..m];
    case Requeue => RequeueAccounts(s);
  }

  /** A report is dropped only when as many newer ones as the queue can hold are held afterwards. */
  lemma DropsOnlyWhenFull(s: System, op: Op, id: nat)
    requires Accounted(s) && Allowed(s, op)
    requires id in Next(s, op).dropped && id !in s.dropped
    ensures var held := Next(s, op).queue.entries;
            |held| == s.queue.capacity && forall r :: r in held ==> id < r.id
  {
    hide Partition;
    PartitionOrder(Ids(Custody(s)), s.delivered, s.dropped, s.next);
    if op.Enqueue? {
      forall k | 0 <= k < |s.queue.entries| ensures s.queue.entries[k].id < s.next {
        assert Ids(Custody(s))[|s.inFlight| + k] == s.queue.entries[k].id;
      }
      EnqueueDropsOldest(s, op.payload);
    } else if op.Requeue? {
      RequeueDropsOldest(s, id);
    }
  }

  lemma PartitionOrder(kept: seq<nat>, delivered: set<nat>, dropped: set<nat>, next: nat)
    requires Partition(kept, delivered, dropped, next)
    ensures Increasing(kept) && forall k :: 0 <= k < |kept| ==> kept[k] < next
  {
  }

  lemma EnqueueDropsOldest(s: System, payload: string)
    requires Increasing(Ids(Custody(s))) && forall r :: r in s.queue.entries ==> r.id < s.next
    requires 1 <= s.queue.capacity <= |s.queue.entries|
    ensures forall r :: r in Enqueued(s.queue, Report(s.next, payload, 0)).entries ==> s.queue.entries[0].id < r.id
  {
    var kept, m, rest := Ids(Custody(s)), |s.inFlight|, s.queue.entries[1..];
    forall k | 0 <= k < |rest| ensures s.queue.entries[0].id < rest[k].id {
      assert kept[m] == s.queue.entries[0].id && kept[m + 1 + k] == rest[k].id;
    }
  }

  lemma RequeueDropsOldest(s: System, id: nat)
    requires Increasing(Ids(Custody(s)))
    requires id in Ids(s.inFlight + s.queue.entries)[..Excess(s.queue, s.inFlight)]
    ensures |Requeued(s.queue, s.inFlight).entries| == s.queue.capacity
    ensures forall r :: r in Requeued(s.queue, s.inFlight).entries ==> id < r.id
  {
    var kept, excess, held := Ids(Custody(s)), Excess(s.queue, s.inFlight), Requeued(s.queue, s.inFlight).entries;
    var j :| 0 <= j < excess && kept[j] == id;
    forall k | 0 <= k < |held| ensures id < held[k].id {
      assert held[k].id == kept[excess + k];
    }
  }

  // ---------------------------------------------------------------- whole runs

  function Run(capacity: nat, ops: seq<Op>): System
    requires capacity >= 1
    ensures Run(capacity, ops).queue.capacity == capacity
  {
    if ops == [] then System(Queue(capacity, [], 0), [], {}, {}, 0)
    else Next(Run(capacity, ops[..|ops| - 1]), ops[|ops| - 1])
  }

  ghost predicate LegalRun(capacity: nat, ops: seq<Op>)
    requires capacity >= 1
  {
    forall k :: 0 <= k < |ops| ==> Allowed(Run(capacity, ops[..k]), ops[k])
  }

  /** Over every legal run, each report is delivered, in flight, held or dropped, and never two of these. */
  lemma {:induction false} EveryRunIsAccounted(capacity: nat, ops: seq<Op>)
    requires capacity >= 1 && LegalRun(capacity, ops)
    ensures Accounted(Run(capacity, ops))
  {
    if ops != [] {
      var n := |ops| - 1;
      assert forall k :: 0 <= k < n ==> ops[..n][..k] == ops[..k];
      EveryRunIsAccounted(capacity, ops[..n]);
      NextAccounts(Run(capacity, ops[..n]), ops[n]);
    }
  }

  // ---------------------------------------------------------------- what a report carries

  /** The payloads ever enqueued, by report id. */
  function Payloads(ops: seq<Op>): seq<string> {
    if ops == [] then []
    else Payloads(ops[..|ops| - 1]) + if ops[|ops| - 1].Enqueue? then [ops[|ops| - 1].payload] else []
  }

  /** How often a report was drained for delivery. */
  function Attempts(capacity: nat, ops: seq<Op>, id: nat): nat
    requires capacity >= 1
  {
    if ops == [] then 0
    else
      var n := |ops| - 1;
      var q := Run(capacity, ops[..n]).queue;
      Attempts(capacity, ops[..n], id)
      + if ops[n].Drain? && id in Ids(q.entries[..Take(q, ops[n].limit)]) then 1 else 0
  }

  /** A report still with the daemon carries what was enqueued under its id and counts its deliveries tried. */
  ghost predicate Carries(capacity: nat, ops: seq<Op>, r: Report)
    requires capacity >= 1
  {
    && r.id < |Payloads(ops)| && r.payload == Payloads(ops)[r.id]
    && r.attempts == Saturate(Attempts(capacity, ops, r.id), U32_MAX)
  }

  lemma {:induction false} FreshIsUntried(capacity: nat, ops: seq<Op>, id: nat)
    requires capacity >= 1 && LegalRun(capacity, ops) && id >= |Payloads(ops)|
    ensures Run(capacity, ops).next == |Payloads(ops)| && Attempts(capacity, ops, id) == 0
  {
    if ops != [] {
      var n := |ops| - 1;
      LegalBefore(capacity, ops);
      FreshIsUntried(capacity, ops[..n], id);
      EveryRunIsAccounted(capacity, ops[..n]);
      var s := Run(capacity, ops[..n]);
      hide Next, Run, LegalRun;
      if ops[n].Drain? {
        HeldAreOld(s, Take(s.queue, ops[n].limit), id);
      }
      NextNumbers(s, ops[n]);
      RunStep(capacity, ops);
    } else {
      RunStarts(capacity);
    }
  }

  lemma RunStep(capacity: nat, ops: seq<Op>)
    requires capacity >= 1 && ops != []
    ensures Run(capacity, ops) == Next(Run(capacity, ops[..|ops| - 1]), ops[|ops| - 1])
  {
  }

  lemma RunStarts(capacity: nat)
    requires capacity >= 1
    ensures Run(capacity, []) == System(Queue(capacity, [], 0), [], {}, {}, 0)
  {
  }

  lemma NextNumbers(s: System, op: Op)
    requires s.queue.capacity >= 1
    ensures Next(s, op).next == s.next + if op.Enqueue? then 1 else 0
  {
  }

  lemma LegalBefore(capacity: nat, ops: seq<Op>)
    requires capacity >= 1 && LegalRun(capacity, ops) && ops != []
    ensures var n := |ops| - 1; LegalRun(capacity, ops[..n]) && Allowed(Run(capacity, ops[..n]), ops[n])
  {
    var n := |ops| - 1;
    assert forall k :: 0 <= k < n ==> ops[..n][..k] == ops[..k] && ops[..n][k] == ops[k];
  }

  lemma HeldAreOld(s: System, n: nat, id: nat)
    requires Accounted(s) && n <= |s.queue.entries| && id >= s.next
    ensures id !in Ids(s.queue.entries[..n])
  {
    PartitionOrder(Ids(Custody(s)), s.delivered, s.dropped, s.next);
    forall k | 0 <= k < n ensures s.queue.entries[k].id < s.next {
      assert Ids(Custody(s))[|s.inFlight| + k] == s.queue.entries[k].id;
    }
  }

  lemma KeptApart(s: System, n: nat, k: nat)
    requires Accounted(s) && n <= k < |s.queue.entries|
    ensures s.queue.entries[k].id !in Ids(s.queue.entries[..n])
  {
    PartitionOrder(Ids(Custody(s)), s.delivered, s.dropped, s.next);
    forall j | 0 <= j < n ensures s.queue.entries[j].id != s.queue.entries[k].id {
      assert Ids(Custody(s))[|s.inFlight| + j] == s.queue.entries[j].id;
      assert Ids(Custody(s))[|s.inFlight| + k] == s.queue.entries[k].id;
    }
  }

  ghost predicate AllCarry(capacity: nat, ops: seq<Op>, reports: seq<Report>)
    requires capacity >= 1
  {
    forall k :: 0 <= k < |reports| ==> Carries(capacity, ops, reports[k])
  }

  predicate TakenLast(capacity: nat, ops: seq<Op>, id: nat)
    requires capacity >= 1 && ops != []
  {
    var n := |ops| - 1;
    var q := Run(capacity, ops[..n]).queue;
    ops[n].Drain? && id in Ids(q.entries[..Take(q, ops[n].limit)])
  }

  lemma CarriesLater(capacity: nat, ops: seq<Op>, r: Report)
    requires capacity >= 1 && ops != [] && Carries(capacity, ops[..|ops| - 1], r)
    ensures Carries(capacity, ops, if TakenLast(capacity, ops, r.id) then r.(attempts := Saturate(r.attempts + 1, U32_MAX)) else r)
  {
    hide Run;
  }

  lemma CarriesFirst(capacity: nat, ops: seq<Op>)
    requires capacity >= 1 && ops != [] && LegalRun(capacity, ops) && ops[|ops| - 1].Enqueue?
    ensures var n := |ops| - 1; Carries(capacity, ops, Report(Run(capacity, ops[..n]).next, ops[n].payload, 0))
  {
    var n := |ops| - 1;
    LegalBefore(capacity, ops);
    hide Run, LegalRun;
    FreshIsUntried(capacity, ops[..n], |Payloads(ops[..n])|);
  }

  /** Over every legal run, whatever is in flight or held carries its own payload and its own count of attempts. */
  lemma {:induction false} ReportsCarry(capacity: nat, ops: seq<Op>)
    requires capacity >= 1 && LegalRun(capacity, ops)
    ensures AllCarry(capacity, ops, Custody(Run(capacity, ops)))
  {
    if ops == [] {
      RunStarts(capacity);
    } else {
      var n := |ops| - 1;
      LegalBefore(capacity, ops);
      ReportsCarry(capacity, ops[..n]);
      EveryRunIsAccounted(capacity, ops[..n]);
      RunStep(capacity, ops);
      StepCarries(capacity, ops);
    }
  }

  lemma StepCarries(capacity: nat, ops: seq<Op>)
    requires capacity >= 1 && ops != [] && LegalRun(capacity, ops)
    requires var s := Run(capacity, ops[..|ops| - 1]); Accounted(s) && Allowed(s, ops[|ops| - 1]) && AllCarry(capacity, ops[..|ops| - 1], Custody(s))
    ensures AllCarry(capacity, ops, Custody(Next(Run(capacity, ops[..|ops| - 1]), ops[|ops| - 1])))
  {
    var n := |ops| - 1;
    var op, s := ops[n], Run(capacity, ops[..n]);
    var kept, now := Custody(s), Custody(Next(s, op));
    if op.Enqueue? {
      CarriesFirst(capacity, ops);
    }
    hide Run, LegalRun, Carries, Accounted;
    forall k | 0 <= k < |now| ensures Carries(capacity, ops, now[k]) {
      if op.Drain? {
        CarriesLater(capacity, ops, kept[k]);
        var m := Take(s.queue, op.limit);
        if k < m {
          assert Ids(s.queue.entries[..m])[k] == kept[k].id;
        } else {
          KeptApart(s, m, k);
        }
      } else if !(op.Enqueue? && k == |now| - 1) {
        var j := KeptIndex(s, op, k);
        CarriesLater(capacity, ops, kept[j]);
      }
    }
  }

  lemma KeptIndex(s: System, op: Op, k: nat) returns (j: nat)
    requires s.queue.capacity >= 1 && !op.Drain? && k < |Custody(Next(s, op))|
    requires !(op.Enqueue? && k == |Custody(Next(s, op))| - 1)
    ensures j < |Custody(s)| && Custody(Next(s, op))[k] == Custody(s)[j]
  {
    match op
    case Enqueue(payload) =>
      j := if |s.queue.entries| >= s.queue.capacity && k >= |s.inFlight| then k + 1 else k;
    case Acknowledge => j := k + |s.inFlight|;
    case Requeue => j := k + Excess(s.queue, s.inFlight);
  }
}
