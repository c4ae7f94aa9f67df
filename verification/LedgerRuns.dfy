/** Conservation over every interleaving of pushes, drains, deliveries, requeues and sacrifices. */
module LedgerRuns {
  import opened Domain
  import opened Ledger

  datatype What = Calls | Unknown | Duration | Prompt | Completion | Total

  /** What is being counted: one action, all stamps, or one field of one usage key. */
  datatype Gauge = OfAction(id: nat) | OfStamps | OfUsage(what: What, key: Key)

  function Known(tokens: Option<nat>): nat {
    if tokens.Some? then tokens.value else 0
  }

  function Tokens(what: What, u: Usage): Option<nat> {
    match what
    case Prompt => u.prompt
    case Completion => u.completion
    case _ => u.total
  }

  predicate IsTokens(what: What) {
    what.Prompt? || what.Completion? || what.Total?
  }

  function Amount(what: What, u: Usage): nat {
    match what
    case Calls => u.calls
    case Unknown => u.unknown
    case Duration => u.duration
    case _ => Known(Tokens(what, u))
  }

  function Weight(g: Gauge, e: Entry): nat {
    match g
    case OfAction(id) => if e.ActionEntry? && e.id == id then 1 else 0
    case OfStamps => if e.TraceEntry? then e.stamp else 0
    case OfUsage(what, key) => if e.UsageEntry? && e.sum.key == key then Amount(what, e.sum) else 0
  }

  function Sum(g: Gauge, s: seq<Entry>): nat {
    if s == [] then 0 else Weight(g, s[0]) + Sum(g, s[1..])
  }

  lemma {:induction false} SumConcat(g: Gauge, a: seq<Entry>, b: seq<Entry>)
    ensures Sum(g, a + b) == Sum(g, a) + Sum(g, b)
  {
    if a == [] {
      assert a + b == b;
    } else {
      assert (a + b)[1..] == a[1..] + b;
      SumConcat(g, a[1..], b);
    }
  }

  lemma SumContents(g: Gauge, b: Buffer)
    ensures Sum(g, Contents(b)) == Sum(g, b.actions) + Sum(g, b.traces) + Sum(g, UsageEntries(b.usage))
  {
    SumConcat(g, b.actions + b.traces, UsageEntries(b.usage));
    SumConcat(g, b.actions, b.traces);
  }

  // ---------------------------------------------------------------- merging

  /** Known tokens that merging into an unknown batch throws away. */
  function MergeLoss(g: Gauge, a: Usage, b: Usage): nat {
    if g.OfUsage? && IsTokens(g.what) && b.key == g.key && Tokens(g.what, a).None? then Known(Tokens(g.what, b)) else 0
  }

  lemma MergeAdds(g: Gauge, a: Usage, b: Usage)
    requires a.key == b.key
    ensures Weight(g, UsageEntry(Merge(a, b))) + MergeLoss(g, a, b) == Weight(g, UsageEntry(a)) + Weight(g, UsageEntry(b))
  {
  }

  function BatchLoss(g: Gauge, usage: seq<Usage>, entry: Usage): nat {
    if usage == [] then 0
    else if usage[0].key == entry.key then MergeLoss(g, usage[0], entry)
    else BatchLoss(g, usage[1..], entry)
  }

  lemma {:induction false} BatchAdds(g: Gauge, usage: seq<Usage>, entry: Usage)
    ensures Sum(g, UsageEntries(Batched(usage, entry))) + BatchLoss(g, usage, entry) ==
            Sum(g, UsageEntries(usage)) + Weight(g, UsageEntry(entry))
  {
    if usage != [] {
      if usage[0].key == entry.key {
        MergeAdds(g, usage[0], entry);
        var merged := [Merge(usage[0], entry)] + usage[1..];
        assert merged[1..] == usage[1..];
        SumUsageCons(g, merged);
        SumUsageCons(g, usage);
      } else {
        BatchAdds(g, usage[1..], entry);
        var batched := [usage[0]] + Batched(usage[1..], entry);
        assert batched[1..] == Batched(usage[1..], entry);
        SumUsageCons(g, batched);
        SumUsageCons(g, usage);
      }
    } else {
      SumUsageCons(g, [entry]);
      assert [entry][1..] == [];
    }
  }

  lemma SumUsageCons(g: Gauge, usage: seq<Usage>)
    requires usage != []
    ensures Sum(g, UsageEntries(usage)) == Weight(g, UsageEntry(usage[0])) + Sum(g, UsageEntries(usage[1..]))
  {
    assert UsageEntries(usage)[1..] == UsageEntries(usage[1..]);
  }

  function RebatchLoss(g: Gauge, usage: seq<Usage>, entries: seq<Entry>): nat
    decreases |entries|
  {
    if entries == [] then 0
    else if entries[0].UsageEntry? then
      BatchLoss(g, usage, entries[0].sum) + RebatchLoss(g, Batched(usage, entries[0].sum), entries[1..])
    else RebatchLoss(g, usage, entries[1..])
  }

  function OnlyUsage(entries: seq<Entry>): seq<Entry> {
    if entries == [] then []
    else (if entries[0].UsageEntry? then [entries[0]] else []) + OnlyUsage(entries[1..])
  }

  lemma {:induction false} RebatchAdds(g: Gauge, usage: seq<Usage>, entries: seq<Entry>)
    ensures Sum(g, UsageEntries(Rebatched(usage, entries))) + RebatchLoss(g, usage, entries) ==
            Sum(g, UsageEntries(usage)) + Sum(g, OnlyUsage(entries))
    decreases |entries|
  {
    if entries != [] {
      if entries[0].UsageEntry? {
        BatchAdds(g, usage, entries[0].sum);
        RebatchAdds(g, Batched(usage, entries[0].sum), entries[1..]);
        SumConcat(g, [entries[0]], OnlyUsage(entries[1..]));
      } else {
        assert [] + OnlyUsage(entries[1..]) == OnlyUsage(entries[1..]);
        RebatchAdds(g, usage, entries[1..]);
      }
    }
  }

  lemma {:induction false} SumByKind(g: Gauge, entries: seq<Entry>)
    ensures Sum(g, entries) == Sum(g, OnlyActions(entries)) + Sum(g, OnlyTraces(entries)) + Sum(g, OnlyUsage(entries))
  {
    if entries != [] {
      SumByKind(g, entries[1..]);
      SumConcat(g, if entries[0].ActionEntry? then [entries[0]] else [], OnlyActions(entries[1..]));
      SumConcat(g, if entries[0].TraceEntry? then [entries[0]] else [], OnlyTraces(entries[1..]));
      SumConcat(g, if entries[0].UsageEntry? then [entries[0]] else [], OnlyUsage(entries[1..]));
    }
  }

  // ---------------------------------------------------------------- the system

  /** The buffer with everything that left it: in flight, delivered, or gone (sacrificed and coalesced away). */
  datatype System = System(buffer: Buffer, inFlight: seq<Entry>, delivered: seq<Entry>, gone: seq<Entry>)

  const START := System(EMPTY, [], [], [])

  /** `Deliver` and `Requeue` take the in-flight records from position `i` up to `j`. */
  datatype Op =
    | PushAction(id: nat)
    | PushTrace(id: nat, isObject: bool)
    | PushUsage(usage: Usage)
    | Sacrifice(count: nat)
    | Drain
    | Deliver(i: nat, j: nat)
    | Requeue(i: nat, j: nat)

  predicate Allowed(s: System, op: Op) {
    op.Deliver? || op.Requeue? ==> op.i <= op.j <= |s.inFlight|
  }

  function Cut(s: seq<Entry>, i: nat, j: nat): seq<Entry>
    requires i <= j <= |s|
  {
    s[..i] + s[j..]
  }

  function Next(s: System, op: Op): System
    requires Allowed(s, op)
  {
    var b := s.buffer;
    match op
    case PushAction(id) =>
      if |b.actions| >= ACTION_CAPACITY then s else s.(buffer := b.(actions := b.actions + [ActionEntry(id)]))
    case PushTrace(id, isObject) =>
      s.(buffer := TracePushed(b, id, isObject), gone := s.gone + b.traces[..TraceExcess(b)])
    case PushUsage(usage) => s.(buffer := b.(usage := Batched(b.usage, usage)))
    case Sacrifice(count) =>
      var n := if count < |b.actions| then count else |b.actions|;
      s.(buffer := b.(actions := b.actions[n..]), gone := s.gone + b.actions[..n])
    case Drain => s.(buffer := EMPTY.(droppedTraces := b.droppedTraces), inFlight := s.inFlight + Contents(b))
    case Deliver(i, j) => s.(inFlight := Cut(s.inFlight, i, j), delivered := s.delivered + s.inFlight[i..j])
    case Requeue(i, j) => s.(inFlight := Cut(s.inFlight, i, j), buffer := Requeued(b, s.inFlight[i..j]))
  }

  /** What an operation brings in, on one gauge. */
  function Added(g: Gauge, s: System, op: Op): nat
    requires Allowed(s, op)
  {
    match op
    case PushAction(id) => if |s.buffer.actions| >= ACTION_CAPACITY then 0 else Weight(g, ActionEntry(id))
    case PushTrace(id, isObject) => Weight(g, TraceEntry(id, isObject, StampFor(s.buffer, isObject)))
    case PushUsage(usage) => Weight(g, UsageEntry(usage))
    case _ => 0
  }

  /** What an operation forgets, on one gauge: only merges forget, and only tokens. */
  function Forgotten(g: Gauge, s: System, op: Op): nat
    requires Allowed(s, op)
  {
    match op
    case PushUsage(usage) => BatchLoss(g, s.buffer.usage, usage)
    case Requeue(i, j) => RebatchLoss(g, s.buffer.usage, s.inFlight[i..j])
    case _ => 0
  }

  function Everywhere(g: Gauge, s: System): nat {
    Sum(g, Contents(s.buffer)) + Sum(g, s.inFlight) + Sum(g, s.delivered) + Sum(g, s.gone)
  }

  lemma SumSplit(g: Gauge, s: seq<Entry>, n: nat)
    requires n <= |s|
    ensures Sum(g, s) == Sum(g, s[..n]) + Sum(g, s[n..])
  {
    assert s == s[..n] + s[n..];
    SumConcat(g, s[..n], s[n..]);
  }

  lemma SumCut(g: Gauge, s: seq<Entry>, i: nat, j: nat)
    requires i <= j <= |s|
    ensures Sum(g, s) == Sum(g, Cut(s, i, j)) + Sum(g, s[i..j])
  {
    SumSplit(g, s, i);
    SumSplit(g, s[i..], j - i);
    assert s[i..][..j - i] == s[i..j] && s[i..][j - i..] == s[j..];
    SumConcat(g, s[..i], s[j..]);
  }

  lemma SumOne(g: Gauge, e: Entry)
    ensures Sum(g, [e]) == Weight(g, e)
  {
  }

  lemma BufferConserves(g: Gauge, s: System, op: Op)
    requires Allowed(s, op) && (op.PushAction? || op.PushTrace? || op.PushUsage? || op.Sacrifice?)
    ensures Everywhere(g, Next(s, op)) + Forgotten(g, s, op) == Everywhere(g, s) + Added(g, s, op)
  {
    hide Sum, Contents;
    var b, s1 := s.buffer, Next(s, op);
    SumContents(g, b);
    SumContents(g, s1.buffer);
    match op
    case PushAction(id) =>
      SumConcat(g, b.actions, [ActionEntry(id)]);
      SumOne(g, ActionEntry(id));
    case PushTrace(id, isObject) =>
      var n, e := TraceExcess(b), TraceEntry(id, isObject, StampFor(b, isObject));
      SumSplit(g, b.traces, n);
      SumConcat(g, b.traces[n..], [e]);
      SumOne(g, e);
      SumConcat(g, s.gone, b.traces[..n]);
    case PushUsage(usage) =>
      BatchAdds(g, b.usage, usage);
    case Sacrifice(count) =>
      var n := if count < |b.actions| then count else |b.actions|;
      SumSplit(g, b.actions, n);
      SumConcat(g, s.gone, b.actions[..n]);
  }

  lemma TransferConserves(g: Gauge, s: System, op: Op)
    requires Allowed(s, op) && (op.Drain? || op.Deliver? || op.Requeue?)
    ensures Everywhere(g, Next(s, op)) + Forgotten(g, s, op) == Everywhere(g, s) + Added(g, s, op)
  {
    match op
    case Drain => SumConcat(g, s.inFlight, Contents(s.buffer));
    case Deliver(i, j) =>
      SumCut(g, s.inFlight, i, j);
      SumConcat(g, s.delivered, s.inFlight[i..j]);
    case Requeue(i, j) =>
      hide Sum, Contents;
      var b, back := s.buffer, s.inFlight[i..j];
      SumContents(g, b);
      SumContents(g, Requeued(b, back));
      SumCut(g, s.inFlight, i, j);
      SumByKind(g, back);
      RebatchAdds(g, b.usage, back);
      SumConcat(g, OnlyActions(back), b.actions);
      SumConcat(g, OnlyTraces(back), b.traces);
  }

  // ---------------------------------------------------------------- whole runs

  /** Positions that name nothing in flight move nothing. */
  function Step(s: System, op: Op): System {
    if Allowed(s, op) then Next(s, op) else s
  }

  function After(ops: seq<Op>): System {
    if ops == [] then START else Step(After(ops[..|ops| - 1]), ops[|ops| - 1])
  }

  function TotalAdded(g: Gauge, ops: seq<Op>): nat {
    if ops == [] then 0
    else
      var n := |ops| - 1;
      var s := After(ops[..n]);
      TotalAdded(g, ops[..n]) + if Allowed(s, ops[n]) then Added(g, s, ops[n]) else 0
  }

  function TotalForgotten(g: Gauge, ops: seq<Op>): nat {
    if ops == [] then 0
    else
      var n := |ops| - 1;
      var s := After(ops[..n]);
      TotalForgotten(g, ops[..n]) + if Allowed(s, ops[n]) then Forgotten(g, s, ops[n]) else 0
  }

  /**
   * On every gauge and over every run, what was pushed is what is held, in flight, delivered or
   * gone, plus what merges forgot.
   */
  lemma {:induction false} LedgerConserves(g: Gauge, ops: seq<Op>)
    ensures Everywhere(g, After(ops)) + TotalForgotten(g, ops) == TotalAdded(g, ops)
  {
    if ops != [] {
      var n := |ops| - 1;
      LedgerConserves(g, ops[..n]);
      var s, op := After(ops[..n]), ops[n];
      hide Everywhere, Next, Added, Forgotten;
      if Allowed(s, op) {
        if op.Drain? || op.Deliver? || op.Requeue? {
          TransferConserves(g, s, op);
        } else {
          BufferConserves(g, s, op);
        }
      }
    }
  }

  predicate OfTokens(g: Gauge) {
    g.OfUsage? && IsTokens(g.what)
  }

  lemma {:induction false} BatchForgetsNothing(g: Gauge, usage: seq<Usage>, entry: Usage)
    requires OfTokens(g) ==> Held(g, usage)
    ensures BatchLoss(g, usage, entry) == 0
    ensures Held(g, usage) && OpensKnown(g, usage, entry) ==> Held(g, Batched(usage, entry))
  {
    if usage != [] {
      BatchForgetsNothing(g, usage[1..], entry);
    }
  }

  /** The gauged tokens of this record are known, if it has the gauged key. */
  predicate KnownIn(g: Gauge, u: Usage) {
    OfTokens(g) && u.key == g.key ==> Tokens(g.what, u).Some?
  }

  /** The record does not open a batch with unknown tokens: they are known, or its batch is already there. */
  predicate OpensKnown(g: Gauge, usage: seq<Usage>, u: Usage) {
    KnownIn(g, u) || exists k :: 0 <= k < |usage| && usage[k].key == u.key
  }

  predicate Held(g: Gauge, usage: seq<Usage>) {
    forall k :: 0 <= k < |usage| ==> KnownIn(g, usage[k])
  }

  predicate Carried(g: Gauge, entries: seq<Entry>) {
    forall k :: 0 <= k < |entries| && entries[k].UsageEntry? ==> KnownIn(g, entries[k].sum)
  }

  lemma {:induction false} RebatchForgetsNothing(g: Gauge, usage: seq<Usage>, entries: seq<Entry>)
    requires OfTokens(g) ==> Held(g, usage) && Carried(g, entries)
    ensures RebatchLoss(g, usage, entries) == 0
    ensures Held(g, usage) && Carried(g, entries) ==> Held(g, Rebatched(usage, entries))
    decreases |entries|
  {
    if entries != [] {
      if entries[0].UsageEntry? {
        BatchForgetsNothing(g, usage, entries[0].sum);
        RebatchForgetsNothing(g, Batched(usage, entries[0].sum), entries[1..]);
      } else {
        RebatchForgetsNothing(g, usage, entries[1..]);
      }
    }
  }

  lemma {:induction false} UsageEntriesCarry(g: Gauge, usage: seq<Usage>)
    requires Held(g, usage)
    ensures Carried(g, UsageEntries(usage))
  {
    if usage != [] {
      UsageEntriesCarry(g, usage[1..]);
    }
  }

  lemma KnownStep(g: Gauge, s: System, op: Op)
    requires Allowed(s, op) && Held(g, s.buffer.usage) && Carried(g, s.inFlight)
    requires op.PushUsage? ==> OpensKnown(g, s.buffer.usage, op.usage)
    requires CarriesNoUsage(s.buffer)
    ensures Forgotten(g, s, op) == 0
    ensures var s1 := Next(s, op); Held(g, s1.buffer.usage) && Carried(g, s1.inFlight) && CarriesNoUsage(s1.buffer)
  {
    match op
    case PushUsage(usage) => BatchForgetsNothing(g, s.buffer.usage, usage);
    case Drain => UsageEntriesCarry(g, s.buffer.usage);
    case Requeue(i, j) =>
      RebatchForgetsNothing(g, s.buffer.usage, s.inFlight[i..j]);
      OnlyKinds(s.inFlight[i..j]);
    case _ =>
  }

  /** The action and trace queues hold actions and traces. */
  predicate CarriesNoUsage(b: Buffer) {
    && (forall k :: 0 <= k < |b.actions| ==> b.actions[k].ActionEntry?)
    && (forall k :: 0 <= k < |b.traces| ==> b.traces[k].TraceEntry?)
  }

  lemma {:induction false} OnlyKinds(entries: seq<Entry>)
    ensures forall k :: 0 <= k < |OnlyActions(entries)| ==> OnlyActions(entries)[k].ActionEntry?
    ensures forall k :: 0 <= k < |OnlyTraces(entries)| ==> OnlyTraces(entries)[k].TraceEntry?
  {
    if entries != [] {
      OnlyKinds(entries[1..]);
    }
  }

  predicate NoBatchOpenedUnknown(g: Gauge, ops: seq<Op>) {
    forall k :: 0 <= k < |ops| && ops[k].PushUsage? ==> OpensKnown(g, After(ops[..k]).buffer.usage, ops[k].usage)
  }

  lemma OpenedEarlier(g: Gauge, ops: seq<Op>, n: nat)
    requires n <= |ops| && (OfTokens(g) ==> NoBatchOpenedUnknown(g, ops))
    ensures OfTokens(g) ==> NoBatchOpenedUnknown(g, ops[..n])
  {
    assert forall k :: 0 <= k < n ==> ops[..n][..k] == ops[..k] && ops[..n][k] == ops[k];
  }

  /**
   * Nothing is ever forgotten on actions, stamps, calls, unknowns and durations; and token totals
   * are kept whole when no batch under the key was opened by an unknown.
   */
  lemma {:induction false} NothingForgotten(g: Gauge, ops: seq<Op>)
    requires OfTokens(g) ==> NoBatchOpenedUnknown(g, ops)
    ensures TotalForgotten(g, ops) == 0
    ensures var s := After(ops); Held(g, s.buffer.usage) && Carried(g, s.inFlight) && CarriesNoUsage(s.buffer)
  {
    if ops != [] {
      var n := |ops| - 1;
      OpenedEarlier(g, ops, n);
      NothingForgotten(g, ops[..n]);
      hide Held, Carried, CarriesNoUsage, Next, Forgotten;
      if Allowed(After(ops[..n]), ops[n]) {
        KnownStep(g, After(ops[..n]), ops[n]);
      }
    }
  }

  /** A positive known amount would be merged into the batch of its key, which is unknown. */
  predicate LosingMerge(g: Gauge, usage: seq<Usage>, u: Usage) {
    && OfTokens(g) && u.key == g.key && Known(Tokens(g.what, u)) > 0
    && exists k :: 0 <= k < |usage| && IsBatchOf(usage, k, u.key) && Tokens(g.what, usage[k]).None?
  }

  /** The batch a record of the key is merged into: the first of that key. */
  predicate IsBatchOf(usage: seq<Usage>, k: nat, key: Key)
    requires k < |usage|
  {
    usage[k].key == key && forall j :: 0 <= j < k ==> usage[j].key != key
  }

  lemma {:induction false} BatchLosesIff(g: Gauge, usage: seq<Usage>, u: Usage)
    ensures BatchLoss(g, usage, u) > 0 <==> LosingMerge(g, usage, u)
  {
    if usage != [] {
      if usage[0].key == u.key {
        assert IsBatchOf(usage, 0, u.key);
      } else {
        BatchLosesIff(g, usage[1..], u);
        forall k | 0 <= k < |usage| - 1 ensures IsBatchOf(usage[1..], k, u.key) <==> IsBatchOf(usage, k + 1, u.key) {
          assert forall j :: 1 <= j < k + 1 ==> usage[j] == usage[1..][j - 1];
        }
        assert forall k :: 0 <= k < |usage| - 1 ==> usage[1..][k] == usage[k + 1];
        if k :| 0 <= k < |usage| && IsBatchOf(usage, k, u.key) && OfTokens(g) && Tokens(g.what, usage[k]).None? {
          assert IsBatchOf(usage[1..], k - 1, u.key);
        }
      }
    }
  }

  /** Some returned record would be lost that way, after those before it have been merged. */
  predicate LosingRequeue(g: Gauge, usage: seq<Usage>, entries: seq<Entry>) {
    exists m :: 0 <= m < |entries| && LosingAt(g, usage, entries, m)
  }

  predicate LosingAt(g: Gauge, usage: seq<Usage>, entries: seq<Entry>, m: nat)
    requires m < |entries|
  {
    entries[m].UsageEntry? && LosingMerge(g, Rebatched(usage, entries[..m]), entries[m].sum)
  }

  lemma {:induction false} RequeueLosesIff(g: Gauge, usage: seq<Usage>, entries: seq<Entry>)
    ensures RebatchLoss(g, usage, entries) > 0 <==> LosingRequeue(g, usage, entries)
    decreases |entries|
  {
    hide LosingMerge, BatchLoss, Batched;
    if entries != [] {
      var next := if entries[0].UsageEntry? then Batched(usage, entries[0].sum) else usage;
      RequeueLosesIff(g, next, entries[1..]);
      if entries[0].UsageEntry? {
        BatchLosesIff(g, usage, entries[0].sum);
      }
      assert entries[..0] == [] && Rebatched(usage, []) == usage;
      assert LosingAt(g, usage, entries, 0) <==> entries[0].UsageEntry? && LosingMerge(g, usage, entries[0].sum);
      forall m | 0 <= m < |entries| - 1 ensures LosingAt(g, next, entries[1..], m) <==> LosingAt(g, usage, entries, m + 1) {
        assert entries[..m + 1][1..] == entries[1..][..m] && entries[..m + 1][0] == entries[0];
        assert Rebatched(usage, entries[..m + 1]) == Rebatched(next, entries[1..][..m]);
      }
      if m :| 0 <= m < |entries| && LosingAt(g, usage, entries, m) {
        if m > 0 {
          assert LosingAt(g, next, entries[1..], m - 1);
        }
      }
    }
  }

  /** The operation would forget tokens on the gauge: a guard on the buffer and what is in flight. */
  predicate Loses(g: Gauge, s: System, op: Op)
    requires Allowed(s, op)
  {
    match op
    case PushUsage(usage) => LosingMerge(g, s.buffer.usage, usage)
    case Requeue(i, j) => LosingRequeue(g, s.buffer.usage, s.inFlight[i..j])
    case _ => false
  }

  predicate NothingLost(g: Gauge, ops: seq<Op>) {
    forall k :: 0 <= k < |ops| && Allowed(After(ops[..k]), ops[k]) ==> !Loses(g, After(ops[..k]), ops[k])
  }

  lemma LosesIff(g: Gauge, s: System, op: Op)
    requires Allowed(s, op)
    ensures Forgotten(g, s, op) > 0 <==> Loses(g, s, op)
  {
    match op
    case PushUsage(usage) => BatchLosesIff(g, s.buffer.usage, usage);
    case Requeue(i, j) => RequeueLosesIff(g, s.buffer.usage, s.inFlight[i..j]);
    case _ =>
  }

  lemma NothingLostStep(g: Gauge, ops: seq<Op>)
    requires ops != []
    ensures var n := |ops| - 1;
            var s := After(ops[..n]);
            NothingLost(g, ops) <==> NothingLost(g, ops[..n]) && (Allowed(s, ops[n]) ==> !Loses(g, s, ops[n]))
  {
    hide Loses, After, Allowed;
    var n := |ops| - 1;
    assert forall k :: 0 <= k < n ==> ops[..n][..k] == ops[..k] && ops[..n][k] == ops[k];
  }

  lemma {:induction false} ForgottenIff(g: Gauge, ops: seq<Op>)
    ensures TotalForgotten(g, ops) == 0 <==> NothingLost(g, ops)
  {
    hide Forgotten, Loses, After, NothingLost;
    if ops == [] {
      NothingToLose(g);
    } else {
      var n := |ops| - 1;
      ForgottenIff(g, ops[..n]);
      NothingLostStep(g, ops);
      if Allowed(After(ops[..n]), ops[n]) {
        LosesIff(g, After(ops[..n]), ops[n]);
      }
    }
  }

  lemma NothingToLose(g: Gauge)
    ensures NothingLost(g, [])
  {
  }

  /** Over every history, on every gauge: all that was pushed is accounted for exactly when no merge met the guard. */
  lemma NothingForgottenIff(g: Gauge, ops: seq<Op>)
    ensures Everywhere(g, After(ops)) == TotalAdded(g, ops) <==> NothingLost(g, ops)
  {
    hide Everywhere, After, TotalAdded, TotalForgotten, NothingLost;
    LedgerConserves(g, ops);
    ForgottenIff(g, ops);
  }

  // ---------------------------------------------------------------- stamps

  function Traces(s: seq<Entry>): nat {
    if s == [] then 0 else Traces(s[..|s| - 1]) + if s[|s| - 1].TraceEntry? then 1 else 0
  }

  lemma {:induction false} TracesConcat(a: seq<Entry>, b: seq<Entry>)
    ensures Traces(a + b) == Traces(a) + Traces(b)
  {
    if b == [] {
      assert a + b == a;
    } else {
      assert (a + b)[..|a + b| - 1] == a + b[..|b| - 1];
      TracesConcat(a, b[..|b| - 1]);
    }
  }

  lemma {:induction false} TracesAll(s: seq<Entry>)
    ensures (forall k :: 0 <= k < |s| ==> s[k].TraceEntry?) ==> Traces(s) == |s|
    ensures (forall k :: 0 <= k < |s| ==> s[k].ActionEntry?) ==> Traces(s) == 0
  {
    if s != [] {
      TracesAll(s[..|s| - 1]);
    }
  }

  /** Stamps ever written plus the live counter are the traces ever coalesced away. */
  lemma {:induction false} StampsCountDrops(ops: seq<Op>)
    ensures TotalAdded(OfStamps, ops) + After(ops).buffer.droppedTraces == Traces(After(ops).gone)
    ensures CarriesNoUsage(After(ops).buffer)
  {
    if ops != [] {
      var n := |ops| - 1;
      StampsCountDrops(ops[..n]);
      var s, op := After(ops[..n]), ops[n];
      if Allowed(s, op) {
        StampStep(s, op);
      }
    }
  }

  lemma StampStep(s: System, op: Op)
    requires Allowed(s, op) && CarriesNoUsage(s.buffer)
    ensures var s1 := Next(s, op);
            && CarriesNoUsage(s1.buffer)
            && Traces(s1.gone) + s.buffer.droppedTraces == Traces(s.gone) + Added(OfStamps, s, op) + s1.buffer.droppedTraces
  {
    var b := s.buffer;
    match op
    case PushTrace(id, isObject) =>
      TracesConcat(s.gone, b.traces[..TraceExcess(b)]);
      TracesAll(b.traces[..TraceExcess(b)]);
    case Sacrifice(count) =>
      var n := if count < |b.actions| then count else |b.actions|;
      TracesConcat(s.gone, b.actions[..n]);
      TracesAll(b.actions[..n]);
    case Requeue(i, j) => OnlyKinds(s.inFlight[i..j]);
    case _ =>
  }

  function Visible(s: System): nat {
    Sum(OfStamps, Contents(s.buffer)) + Sum(OfStamps, s.inFlight) + Sum(OfStamps, s.delivered)
  }

  /** What an operator can still read off the stamps falls short of the drops by exactly the stamps that were dropped. */
  lemma StampShortfall(ops: seq<Op>)
    ensures var s := After(ops);
            Visible(s) + s.buffer.droppedTraces + Sum(OfStamps, s.gone) == Traces(s.gone)
  {
    LedgerConserves(OfStamps, ops);
    NothingForgotten(OfStamps, ops);
    StampsCountDrops(ops);
  }

  /** One of the traces the next push coalesces away carries a stamp. */
  predicate LosesAReport(b: Buffer) {
    exists k :: 0 <= k < TraceExcess(b) && Weight(OfStamps, b.traces[k]) > 0
  }

  lemma {:induction false} StampedSum(entries: seq<Entry>)
    ensures Sum(OfStamps, entries) > 0 <==> exists k :: 0 <= k < |entries| && Weight(OfStamps, entries[k]) > 0
  {
    hide Weight;
    if entries != [] {
      StampedSum(entries[1..]);
      if k :| 0 <= k < |entries| && Weight(OfStamps, entries[k]) > 0 {
        assert k > 0 ==> entries[1..][k - 1] == entries[k];
      }
    }
  }

  /** A push loses a report exactly when one of the oldest traces over capacity is stamped. */
  lemma PushLosesReportIff(s: System, id: nat, isObject: bool)
    ensures Sum(OfStamps, Next(s, PushTrace(id, isObject)).gone) > Sum(OfStamps, s.gone) <==> LosesAReport(s.buffer)
  {
    hide Sum, Weight;
    var cut := s.buffer.traces[..TraceExcess(s.buffer)];
    SumConcat(OfStamps, s.gone, cut);
    StampedSum(cut);
    assert forall k :: 0 <= k < |cut| ==> cut[k] == s.buffer.traces[k];
  }

  lemma OthersLoseNoReport(s: System, op: Op)
    requires Allowed(s, op) && !op.PushTrace? && CarriesNoUsage(s.buffer)
    ensures Sum(OfStamps, Next(s, op).gone) == Sum(OfStamps, s.gone)
  {
    if op.Sacrifice? {
      hide Sum;
      var b := s.buffer;
      var n := if op.count < |b.actions| then op.count else |b.actions|;
      SumConcat(OfStamps, s.gone, b.actions[..n]);
      StampedSum(b.actions[..n]);
    }
  }

  predicate NoPushLosesAReport(ops: seq<Op>) {
    forall k :: 0 <= k < |ops| && ops[k].PushTrace? ==> !LosesAReport(After(ops[..k]).buffer)
  }

  lemma NoPushStep(ops: seq<Op>)
    requires ops != []
    ensures var n := |ops| - 1;
            NoPushLosesAReport(ops) <==>
            NoPushLosesAReport(ops[..n]) && (ops[n].PushTrace? ==> !LosesAReport(After(ops[..n]).buffer))
  {
    hide LosesAReport, After;
    var n := |ops| - 1;
    assert forall k :: 0 <= k < n ==> ops[..n][..k] == ops[..k] && ops[..n][k] == ops[k];
  }

  lemma {:induction false} NoStampGone(ops: seq<Op>)
    ensures Sum(OfStamps, After(ops).gone) == 0 <==> NoPushLosesAReport(ops)
  {
    if ops == [] {
      SumNone(OfStamps);
    } else {
      var n := |ops| - 1;
      var before, s, op := ops[..n], After(ops[..n]), ops[n];
      NoStampGone(before);
      StampsCountDrops(before);
      NoPushStep(ops);
      hide Next, Sum, LosesAReport, NoPushLosesAReport;
      if op.PushTrace? {
        PushLosesReportIff(s, op.id, op.isObject);
        PushOnlyAdds(s, op.id, op.isObject);
      } else if Allowed(s, op) {
        OthersLoseNoReport(s, op);
      }
    }
  }

  lemma PushOnlyAdds(s: System, id: nat, isObject: bool)
    ensures Sum(OfStamps, Next(s, PushTrace(id, isObject)).gone) >= Sum(OfStamps, s.gone)
  {
    hide Sum;
    SumConcat(OfStamps, s.gone, s.buffer.traces[..TraceExcess(s.buffer)]);
  }

  /** Over every history, the readable stamps account for every loss exactly when no push ever coalesced a stamped trace. */
  lemma EveryLossReportedIff(ops: seq<Op>)
    ensures var s := After(ops);
            Visible(s) + s.buffer.droppedTraces == Traces(s.gone) <==> NoPushLosesAReport(ops)
  {
    hide Sum, After, Traces, NoPushLosesAReport;
    StampShortfall(ops);
    NoStampGone(ops);
  }

  // ---------------------------------------------------------------- where the stronger readings fail

  function Flood(n: nat): seq<Op> {
    if n == 0 then [] else Flood(n - 1) + [PushTrace(n - 1, true)]
  }

  /** After `n` traces: the last 256, each from number 256 on stamped with the one drop before it. */
  ghost predicate Flooded(n: nat, s: System) {
    var first := if n > TRACE_CAPACITY then n - TRACE_CAPACITY else 0;
    && |s.buffer.traces| == n - first && s.buffer.droppedTraces == 0
    && (forall k :: 0 <= k < n - first ==>
          s.buffer.traces[k] == TraceEntry(first + k, true, if first + k < TRACE_CAPACITY then 0 else 1))
    && Traces(s.gone) == first
    && Sum(OfStamps, s.gone) == if n > 2 * TRACE_CAPACITY then n - 2 * TRACE_CAPACITY else 0
  }

  lemma FloodStep(n: nat, s: System)
    requires Flooded(n, s)
    ensures Flooded(n + 1, Next(s, PushTrace(n, true)))
  {
    hide Sum, Traces;
    var m := TraceExcess(s.buffer);
    TracesConcat(s.gone, s.buffer.traces[..m]);
    SumConcat(OfStamps, s.gone, s.buffer.traces[..m]);
    TracesAll(s.buffer.traces[..m]);
    if m == 1 {
      assert s.buffer.traces[..1] == [s.buffer.traces[0]];
      SumOne(OfStamps, s.buffer.traces[0]);
    } else {
      assert s.buffer.traces[..m] == [];
      SumNone(OfStamps);
    }
  }

  lemma SumNone(g: Gauge)
    ensures Sum(g, []) == 0
  {
  }

  lemma FloodStarts()
    ensures Flooded(0, After([]))
  {
    hide Next, Step;
    SumNone(OfStamps);
  }

  lemma {:induction false} FloodState(n: nat)
    ensures Flooded(n, After(Flood(n)))
  {
    hide Flooded, Next, After;
    if n == 0 {
      FloodStarts();
    } else {
      FloodState(n - 1);
      AfterOne(Flood(n - 1), PushTrace(n - 1, true));
      FloodStep(n - 1, After(Flood(n - 1)));
    }
  }

  /**
   * "Reported exactly once" fails in sight of the reader: after `n` traces and no drain, `n - 256`
   * were coalesced away but every stamp beyond the first 256 went with them.
   */
  lemma StampsUndercount(n: nat)
    requires n >= 2 * TRACE_CAPACITY
    ensures var s := After(Flood(n));
            && Traces(s.gone) == n - TRACE_CAPACITY
            && Visible(s) + s.buffer.droppedTraces == TRACE_CAPACITY
  {
    FloodState(n);
    StampShortfall(Flood(n));
  }

  /** The books after a known record is drained and an unknown one opens the next batch. */
  function Losing(known: Usage, unknown: Usage): System {
    START.(inFlight := [UsageEntry(known)], buffer := EMPTY.(usage := [unknown]))
  }

  lemma AfterOne(ops: seq<Op>, op: Op)
    ensures After(ops + [op]) == Step(After(ops), op)
  {
    assert (ops + [op])[..|ops|] == ops;
  }

  lemma LosingIsReached(known: Usage, unknown: Usage)
    ensures After([PushUsage(known)] + [Drain] + [PushUsage(unknown)]) == Losing(known, unknown)
  {
    AfterOne([], PushUsage(known));
    AfterOne([PushUsage(known)], Drain);
    AfterOne([PushUsage(known)] + [Drain], PushUsage(unknown));
    assert [] + [PushUsage(known)] == [PushUsage(known)];
    assert After([]) == START;
    hide After;
    OneUsage(known);
    assert [] + [UsageEntry(known)] == [UsageEntry(known)];
  }

  lemma OneUsage(u: Usage)
    ensures Contents(EMPTY.(usage := [u])) == [UsageEntry(u)]
  {
    assert [u][1..] == [];
    assert UsageEntries([u]) == [UsageEntry(u)] + UsageEntries([]);
  }

  lemma RequeueOne(known: Usage, unknown: Usage)
    requires known.key == unknown.key
    ensures Next(Losing(known, unknown), Requeue(0, 1)) == START.(buffer := EMPTY.(usage := [Merge(unknown, known)]))
  {
    var back := [UsageEntry(known)];
    assert back[0..1] == back && back[..0] + back[1..] == [] && back[1..] == [];
    assert OnlyActions(back) == [] && OnlyTraces(back) == [];
    assert Batched([unknown], known) == [Merge(unknown, known)];
    assert Rebatched([unknown], back) == Rebatched(Batched([unknown], known), []);
  }

  /**
   * A requeue can lose tokens outright: known usage is drained, an unknown call opens a new
   * batch, and the failed send is merged into that batch. The calls survive; the tokens do not.
   */
  lemma RequeueForgetsTokens(key: Key, tokens: nat)
    ensures var known := Usage(0, key, Some(tokens), Some(tokens), Some(tokens), 1, 0, 0);
            var unknown := Usage(1, key, None, None, None, 1, 1, 0);
            var s := After([PushUsage(known)] + [Drain] + [PushUsage(unknown)]);
            && Allowed(s, Requeue(0, 1))
            && Everywhere(OfUsage(Prompt, key), s) == tokens
            && Everywhere(OfUsage(Prompt, key), Next(s, Requeue(0, 1))) == 0
            && Everywhere(OfUsage(Calls, key), Next(s, Requeue(0, 1))) == 2
  {
    hide After, Next, Contents, Sum;
    var known := Usage(0, key, Some(tokens), Some(tokens), Some(tokens), 1, 0, 0);
    var unknown := Usage(1, key, None, None, None, 1, 1, 0);
    LosingIsReached(known, unknown);
    RequeueOne(known, unknown);
    OneUsage(unknown);
    OneUsage(Merge(unknown, known));
    forall g: Gauge ensures Sum(g, []) == 0 && forall e: Entry :: Sum(g, [e]) == Weight(g, e) {
      SumNone(g);
      forall e: Entry { SumOne(g, e); }
    }
  }
}
