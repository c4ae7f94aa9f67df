/** The order the ledger buffer keeps through drains, acknowledgements and requeues, and what a requeue undoes. */
module LedgerOrder {
  import opened Domain
  import opened Ledger
  import opened LedgerRuns

  datatype Stream = OfActions | OfTraces

  function Only(stream: Stream, entries: seq<Entry>): seq<Entry> {
    if stream.OfActions? then OnlyActions(entries) else OnlyTraces(entries)
  }

  function Queue(stream: Stream, b: Buffer): seq<Entry> {
    if stream.OfActions? then b.actions else b.traces
  }

  /** What is still to be acknowledged of one stream: in flight first, then held. */
  function Line(stream: Stream, s: System): seq<Entry> {
    Only(stream, s.inFlight) + Queue(stream, s.buffer)
  }

  // ---------------------------------------------------------------- one stream of a drain

  lemma {:induction false} OnlyConcat(stream: Stream, a: seq<Entry>, b: seq<Entry>)
    ensures Only(stream, a + b) == Only(stream, a) + Only(stream, b)
  {
    if a == [] {
      assert a + b == b;
    } else {
      assert (a + b)[1..] == a[1..] + b;
      OnlyConcat(stream, a[1..], b);
    }
  }

  predicate AllOf(stream: Stream, entries: seq<Entry>) {
    forall k :: 0 <= k < |entries| ==> if stream.OfActions? then entries[k].ActionEntry? else entries[k].TraceEntry?
  }

  lemma {:induction false} OnlyAll(stream: Stream, entries: seq<Entry>)
    requires AllOf(stream, entries)
    ensures Only(stream, entries) == entries
  {
    if entries != [] {
      OnlyAll(stream, entries[1..]);
    }
  }

  predicate NoneOf(stream: Stream, entries: seq<Entry>) {
    forall k :: 0 <= k < |entries| ==> if stream.OfActions? then !entries[k].ActionEntry? else !entries[k].TraceEntry?
  }

  lemma {:induction false} OnlyNone(stream: Stream, entries: seq<Entry>)
    requires NoneOf(stream, entries)
    ensures Only(stream, entries) == []
  {
    if entries != [] {
      OnlyNone(stream, entries[1..]);
    }
  }

  lemma {:induction false} UsageEntryAt(usage: seq<Usage>)
    ensures |UsageEntries(usage)| == |usage|
    ensures forall k :: 0 <= k < |usage| ==> UsageEntries(usage)[k] == UsageEntry(usage[k])
  {
    if usage != [] {
      UsageEntryAt(usage[1..]);
    }
  }

  lemma OnlyContents(stream: Stream, b: Buffer)
    requires CarriesNoUsage(b)
    ensures Only(stream, Contents(b)) == Queue(stream, b)
  {
    hide Only;
    UsageEntryAt(b.usage);
    OnlyConcat(stream, b.actions + b.traces, UsageEntries(b.usage));
    OnlyConcat(stream, b.actions, b.traces);
    OnlyNone(stream, UsageEntries(b.usage));
    if stream.OfActions? {
      OnlyAll(stream, b.actions);
      OnlyNone(stream, b.traces);
    } else {
      OnlyNone(stream, b.actions);
      OnlyAll(stream, b.traces);
    }
  }

  // ---------------------------------------------------------------- order

  function IdOf(e: Entry): nat {
    match e
    case ActionEntry(id) => id
    case TraceEntry(id, _, _) => id
    case UsageEntry(sum) => sum.usageId
  }

  predicate Rising(entries: seq<Entry>) {
    forall j, k :: 0 <= j < k < |entries| ==> IdOf(entries[j]) < IdOf(entries[k])
  }

  predicate Pushes(stream: Stream, op: Op) {
    if stream.OfActions? then op.PushAction? else op.PushTrace?
  }

  function PushedId(op: Op): nat {
    if op.PushAction? || op.PushTrace? then op.id else 0
  }

  predicate PushedInOrder(stream: Stream, ops: seq<Op>) {
    forall i, j :: 0 <= i < j < |ops| && Pushes(stream, ops[i]) && Pushes(stream, ops[j]) ==>
      PushedId(ops[i]) < PushedId(ops[j])
  }

  /** A record of the stream is returned from in flight while a newer one stays there. */
  predicate Overtakes(stream: Stream, s: System, op: Op) {
    && op.Requeue? && Allowed(s, op)
    && Only(stream, s.inFlight[op.i..op.j]) != [] && Only(stream, s.inFlight[op.j..]) != []
  }

  predicate NothingOvertakes(stream: Stream, ops: seq<Op>) {
    forall k :: 0 <= k < |ops| ==> !Overtakes(stream, After(ops[..k]), ops[k])
  }

  predicate PushedBy(stream: Stream, ops: seq<Op>, e: Entry) {
    exists i :: 0 <= i < |ops| && Pushes(stream, ops[i]) && PushedId(ops[i]) == IdOf(e)
  }

  /** Every entry was pushed by one of the operations. */
  predicate AllPushed(stream: Stream, entries: seq<Entry>, ops: seq<Op>) {
    forall k :: 0 <= k < |entries| ==> PushedBy(stream, ops, entries[k])
  }

  /** One operation takes some run of entries out of a stream and may add the one it pushes at the end. */
  lemma LineStep(stream: Stream, s: System, op: Op) returns (x: seq<Entry>, y: seq<Entry>, z: seq<Entry>, more: seq<Entry>)
    requires Allowed(s, op) && !Overtakes(stream, s, op) && CarriesNoUsage(s.buffer)
    ensures Line(stream, s) == x + y + z && Line(stream, Next(s, op)) == x + z + more
    ensures more == [] || (Pushes(stream, op) && |more| == 1 && IdOf(more[0]) == PushedId(op))
  {
    hide Only, Requeued, TracePushed, Contents;
    var b, fly := s.buffer, s.inFlight;
    x, y, z, more := Only(stream, fly), [], Queue(stream, b), [];
    match op {
      case PushAction(id) =>
        if stream.OfActions? && |b.actions| < ACTION_CAPACITY {
          more := [ActionEntry(id)];
        }
      case PushTrace(id, isObject) =>
        TraceStep(b, id, isObject);
        if stream.OfTraces? {
          y, z, more := b.traces[..TraceExcess(b)], b.traces[TraceExcess(b)..], [TraceEntry(id, isObject, StampFor(b, isObject))];
        }
      case PushUsage(_) =>
      case Sacrifice(count) =>
        if stream.OfActions? {
          var n := if count < |b.actions| then count else |b.actions|;
          y, z := b.actions[..n], b.actions[n..];
        }
      case Drain =>
        OnlyContents(stream, b);
        OnlyConcat(stream, fly, Contents(b));
      case Deliver(i, j) =>
        OnlyParts(stream, fly, i, j);
        x, y, z := Only(stream, fly[..i]), Only(stream, fly[i..j]), Only(stream, fly[j..]) + Queue(stream, b);
      case Requeue(i, j) =>
        RequeueMovesNothing(stream, s, i, j);
        x, z := Line(stream, s), [];
    }
  }

  lemma TraceStep(b: Buffer, id: nat, isObject: bool)
    ensures var r := TracePushed(b, id, isObject);
            && r.traces == b.traces[TraceExcess(b)..] + [TraceEntry(id, isObject, StampFor(b, isObject))]
            && r.actions == b.actions && r.usage == b.usage
  {
  }

  lemma RequeueStep(stream: Stream, b: Buffer, entries: seq<Entry>)
    ensures Queue(stream, Requeued(b, entries)) == Only(stream, entries) + Queue(stream, b)
  {
  }

  lemma OnlyParts(stream: Stream, f: seq<Entry>, i: nat, j: nat)
    requires i <= j <= |f|
    ensures Only(stream, f) == Only(stream, f[..i]) + Only(stream, f[i..j]) + Only(stream, f[j..])
    ensures Only(stream, Cut(f, i, j)) == Only(stream, f[..i]) + Only(stream, f[j..])
  {
    hide Only;
    assert f == f[..i] + f[i..j] + f[j..];
    OnlyConcat(stream, f[..i] + f[i..j], f[j..]);
    OnlyConcat(stream, f[..i], f[i..j]);
    OnlyConcat(stream, f[..i], f[j..]);
  }

  /** What was in flight after the returned records now comes before them. */
  lemma LineOfRequeue(stream: Stream, s: System, i: nat, j: nat)
    requires i <= j <= |s.inFlight|
    ensures var f := s.inFlight;
            var before, back, after := Only(stream, f[..i]), Only(stream, f[i..j]), Only(stream, f[j..]);
            && Line(stream, s) == before + back + after + Queue(stream, s.buffer)
            && Line(stream, Next(s, Requeue(i, j))) == before + after + back + Queue(stream, s.buffer)
  {
    hide Only, Requeued;
    OnlyParts(stream, s.inFlight, i, j);
    RequeueStep(stream, s.buffer, s.inFlight[i..j]);
  }

  lemma RequeueMovesNothing(stream: Stream, s: System, i: nat, j: nat)
    requires i <= j <= |s.inFlight| && !Overtakes(stream, s, Requeue(i, j))
    ensures Line(stream, Next(s, Requeue(i, j))) == Line(stream, s)
  {
    hide Only, Next, Line;
    LineOfRequeue(stream, s, i, j);
  }

  /** A requeue keeps a stream in order exactly when it does not leave a newer record of it in flight. */
  lemma RequeueKeepsOrderIff(stream: Stream, s: System, i: nat, j: nat)
    requires i <= j <= |s.inFlight| && Rising(Line(stream, s))
    ensures Rising(Line(stream, Next(s, Requeue(i, j)))) <==> !Overtakes(stream, s, Requeue(i, j))
  {
    hide Only, Next, IdOf, Line;
    LineOfRequeue(stream, s, i, j);
    var f := s.inFlight;
    var x, y, z, q := Only(stream, f[..i]), Only(stream, f[i..j]), Only(stream, f[j..]), Queue(stream, s.buffer);
    if y == [] || z == [] {
      RequeueMovesNothing(stream, s, i, j);
    } else {
      var was, next := x + y + z + q, x + z + y + q;
      assert was[|x|] == y[0] == next[|x| + |z|] && was[|x| + |y|] == z[0] == next[|x|];
      assert !Rising(next);
    }
  }

  lemma OrderStep(stream: Stream, ops: seq<Op>, line: seq<Entry>, x: seq<Entry>, y: seq<Entry>, z: seq<Entry>, more: seq<Entry>)
    requires ops != [] && PushedInOrder(stream, ops)
    requires line == x + y + z && Rising(line) && AllPushed(stream, line, ops[..|ops| - 1])
    requires more == [] || (Pushes(stream, ops[|ops| - 1]) && |more| == 1 && IdOf(more[0]) == PushedId(ops[|ops| - 1]))
    ensures Rising(x + z + more) && AllPushed(stream, x + z + more, ops)
  {
    hide IdOf, PushedId, Pushes;
    var n, r := |ops| - 1, x + z + more;
    forall k | 0 <= k < |r|
      ensures PushedBy(stream, ops, r[k])
      ensures k < |x + z| && more != [] ==> IdOf(r[k]) < IdOf(more[0])
    {
      if k < |x + z| {
        var m := if k < |x| then k else k + |y|;
        assert line[m] == r[k];
        var i :| 0 <= i < n && Pushes(stream, ops[..n][i]) && PushedId(ops[..n][i]) == IdOf(line[m]);
        assert ops[..n][i] == ops[i];
      } else {
        assert Pushes(stream, ops[n]) && PushedId(ops[n]) == IdOf(r[k]);
      }
    }
    forall j, k | 0 <= j < k < |r| ensures IdOf(r[j]) < IdOf(r[k]) {
      if k < |x + z| {
        assert r[j] == line[if j < |x| then j else j + |y|] && r[k] == line[if k < |x| then k else k + |y|];
      }
    }
  }

  /**
   * However pushes, drains, acknowledgements of any record, sacrifices and requeues interleave, what is in
   * flight and then what is held stays in the order it was pushed, unless a requeue overtakes.
   */
  lemma {:induction false} OrderIsKept(stream: Stream, ops: seq<Op>)
    requires PushedInOrder(stream, ops) && NothingOvertakes(stream, ops)
    ensures Rising(Line(stream, After(ops))) && AllPushed(stream, Line(stream, After(ops)), ops)
  {
    if ops != [] {
      hide Line, Next, Rising, AllPushed, CarriesNoUsage, PushedId;
      var n := |ops| - 1;
      var s, op := After(ops[..n]), ops[n];
      assert forall k :: 0 <= k < n ==> ops[..n][..k] == ops[..k] && ops[..n][k] == ops[k];
      OrderIsKept(stream, ops[..n]);
      StampsCountDrops(ops[..n]);
      if Allowed(s, op) {
        var x, y, z, more := LineStep(stream, s, op);
        OrderStep(stream, ops, Line(stream, s), x, y, z, more);
      } else {
        OrderWaits(stream, ops, Line(stream, s));
      }
    }
  }

  lemma OrderWaits(stream: Stream, ops: seq<Op>, line: seq<Entry>)
    requires ops != [] && PushedInOrder(stream, ops) && Rising(line) && AllPushed(stream, line, ops[..|ops| - 1])
    ensures AllPushed(stream, line, ops)
  {
    hide IdOf, PushedId, Pushes;
    OrderStep(stream, ops, line, line, [], [], []);
    assert line + [] + [] == line;
  }

  // ---------------------------------------------------------------- a failed send

  predicate DistinctKeys(usage: seq<Usage>) {
    forall j, k :: 0 <= j < k < |usage| ==> usage[j].key != usage[k].key
  }

  /**
   * A record joins the first batch of its key: that batch keeps its id, adds the counts and adds
   * tokens to known ones; an unknown stays unknown. A record of a new key becomes the last batch.
   */
  lemma {:induction false} FirstBatchAbsorbs(usage: seq<Usage>, entry: Usage, k: nat)
    requires k <= |usage| && forall j :: 0 <= j < k ==> usage[j].key != entry.key
    requires k < |usage| ==> usage[k].key == entry.key
    ensures var r := Batched(usage, entry);
            if k == |usage| then r == usage + [entry]
            else
              var was := usage[k];
              && |r| == |usage| && r == usage[k := r[k]]
              && r[k].usageId == was.usageId && r[k].key == was.key
              && r[k].calls == was.calls + entry.calls && r[k].unknown == was.unknown + entry.unknown
              && r[k].duration == was.duration + entry.duration
              && r[k].prompt == (if was.prompt.None? then None else Some(was.prompt.value + Known(entry.prompt)))
              && r[k].completion == (if was.completion.None? then None else Some(was.completion.value + Known(entry.completion)))
              && r[k].total == (if was.total.None? then None else Some(was.total.value + Known(entry.total)))
  {
    if k > 0 {
      FirstBatchAbsorbs(usage[1..], entry, k - 1);
    }
  }

  function FirstOf(usage: seq<Usage>, key: Key): (k: nat)
    ensures k <= |usage| && (k < |usage| ==> usage[k].key == key)
    ensures forall j :: 0 <= j < k ==> usage[j].key != key
  {
    if usage == [] || usage[0].key == key then 0 else 1 + FirstOf(usage[1..], key)
  }

  lemma BatchedKeepsKeys(usage: seq<Usage>, entry: Usage)
    requires DistinctKeys(usage)
    ensures DistinctKeys(Batched(usage, entry))
  {
    FirstBatchAbsorbs(usage, entry, FirstOf(usage, entry.key));
  }

  lemma {:induction false} RebatchedKeepsKeys(usage: seq<Usage>, entries: seq<Entry>)
    requires DistinctKeys(usage)
    ensures DistinctKeys(Rebatched(usage, entries))
    decreases |entries|
  {
    hide DistinctKeys, Batched;
    if entries != [] {
      if entries[0].UsageEntry? {
        BatchedKeepsKeys(usage, entries[0].sum);
        RebatchedKeepsKeys(Batched(usage, entries[0].sum), entries[1..]);
      } else {
        RebatchedKeepsKeys(usage, entries[1..]);
      }
    }
  }

  /** No two batches of the buffer ever share a cycle and model. */
  lemma {:induction false} OneBatchPerKey(ops: seq<Op>)
    ensures DistinctKeys(After(ops).buffer.usage)
  {
    if ops != [] {
      var n := |ops| - 1;
      OneBatchPerKey(ops[..n]);
      hide DistinctKeys, Batched, Rebatched;
      var s := After(ops[..n]);
      NoKeys();
      match ops[n] {
        case PushUsage(u) => BatchedKeepsKeys(s.buffer.usage, u);
        case Requeue(i, j) =>
          if Allowed(s, ops[n]) {
            RebatchedKeepsKeys(s.buffer.usage, s.inFlight[i..j]);
          }
        case _ =>
      }
    }
  }

  lemma NoKeys()
    ensures DistinctKeys([])
  {
  }

  lemma {:induction false} RebatchSkips(usage: seq<Usage>, entries: seq<Entry>, rest: seq<Entry>)
    requires forall k :: 0 <= k < |entries| ==> !entries[k].UsageEntry?
    ensures Rebatched(usage, entries + rest) == Rebatched(usage, rest)
    decreases |entries|
  {
    if entries == [] {
      assert entries + rest == rest;
    } else {
      assert (entries + rest)[1..] == entries[1..] + rest;
      RebatchSkips(usage, entries[1..], rest);
    }
  }

  /** Batches of distinct keys, returned in order, become the batches they were. */
  lemma {:induction false} RebatchRebuilds(usage: seq<Usage>, back: seq<Usage>)
    requires DistinctKeys(usage + back)
    ensures Rebatched(usage, UsageEntries(back)) == usage + back
    decreases |back|
  {
    if back == [] {
      assert usage + back == usage;
    } else {
      var u := back[0];
      assert forall j :: 0 <= j < |usage| ==> (usage + back)[j] == usage[j] && (usage + back)[|usage|] == u;
      FirstBatchAbsorbs(usage, u, |usage|);
      assert usage + [u] + back[1..] == usage + back;
      RebatchRebuilds(usage + [u], back[1..]);
      assert UsageEntries(back)[1..] == UsageEntries(back[1..]);
    }
  }

  /** Whatever was pushed since, a requeue puts a drained buffer's records back in front of their kind. */
  lemma RequeueGoesInFront(b: Buffer, later: Buffer)
    requires CarriesNoUsage(b)
    ensures var r := Requeued(later, Contents(b));
            r.actions == b.actions + later.actions && r.traces == b.traces + later.traces && r.droppedTraces == later.droppedTraces
  {
    OnlyContents(OfActions, b);
    OnlyContents(OfTraces, b);
  }

  /** In any history with nothing in flight, a drain whose send fails is undone by its requeue. */
  lemma RequeueUndoesDrain(ops: seq<Op>)
    requires After(ops).inFlight == []
    ensures var n := |Contents(After(ops).buffer)|;
            After(ops + [Drain] + [Requeue(0, n)]) == After(ops)
  {
    hide After, Contents, CarriesNoUsage, DistinctKeys, Next;
    var s := After(ops);
    var n := |Contents(s.buffer)|;
    StampsCountDrops(ops);
    OneBatchPerKey(ops);
    AfterOne(ops, Drain);
    AfterOne(ops + [Drain], Requeue(0, n));
    FailedSend(s);
  }

  lemma FailedSend(s: System)
    requires s.inFlight == [] && CarriesNoUsage(s.buffer) && DistinctKeys(s.buffer.usage)
    ensures var n := |Contents(s.buffer)|;
            Allowed(Next(s, Drain), Requeue(0, n)) && Next(Next(s, Drain), Requeue(0, n)) == s
  {
    hide Contents, Requeued, CarriesNoUsage, DistinctKeys;
    var all := Contents(s.buffer);
    assert [] + all == all;
    assert all[0..|all|] == all && Cut(all, 0, |all|) == [];
    EmptiedAndRefilled(s.buffer);
  }

  lemma EmptiedAndRefilled(b: Buffer)
    requires CarriesNoUsage(b) && DistinctKeys(b.usage)
    ensures Requeued(EMPTY.(droppedTraces := b.droppedTraces), Contents(b)) == b
  {
    RequeueGoesInFront(b, EMPTY.(droppedTraces := b.droppedTraces));
    RebatchSkips([], b.actions + b.traces, UsageEntries(b.usage));
    assert [] + b.usage == b.usage;
    RebatchRebuilds([], b.usage);
  }
}
