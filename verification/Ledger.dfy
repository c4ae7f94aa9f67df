/** The upstream ledger buffer: actions kept, traces coalesced and counted, usage batched into rolling sums. */
module Ledger {
  import opened Domain

  const ACTION_CAPACITY: nat := 8192
  const TRACE_CAPACITY: nat := 256

  // ---------------------------------------------------------------- usage sums

  datatype Key = Key(cycle: Option<nat>, model: Option<string>)

  datatype Usage = Usage(
    usageId: nat,
    key: Key,
    prompt: Option<nat>,
    completion: Option<nat>,
    total: Option<nat>,
    calls: nat,
    unknown: nat,
    duration: nat)

  function SumOpt(a: Option<nat>, b: Option<nat>): Option<nat> {
    if a.Some? && b.Some? then Some(a.value + b.value) else a
  }

  /** The batch keeps its own identity and key. */
  function Merge(a: Usage, b: Usage): Usage {
    a.(prompt := SumOpt(a.prompt, b.prompt),
    completion := SumOpt(a.completion, b.completion),
    total := SumOpt(a.total, b.total),
    calls := a.calls + b.calls,
    unknown := a.unknown + b.unknown,
    duration := a.duration + b.duration)
  }

  /** A rolling sum: the first record opens it, the others are merged in. */
  function Rolled(first: Option<nat>, rest: seq<Option<nat>>): Option<nat> {
    if rest == [] then first else SumOpt(Rolled(first, rest[..|rest| - 1]), rest[|rest| - 1])
  }

  function KnownSum(s: seq<Option<nat>>): nat {
    if s == [] then 0 else KnownSum(s[..|s| - 1]) + if s[|s| - 1].Some? then s[|s| - 1].value else 0
  }

  predicate AllUnknown(s: seq<Option<nat>>) {
    forall k :: 0 <= k < |s| ==> s[k].None?
  }

  /** SUM over a nullable column: the known values, or null when there are none. */
  function SqlSum(s: seq<Option<nat>>): Option<nat> {
    if AllUnknown(s) then None else Some(KnownSum(s))
  }

  lemma {:induction false} RolledMeans(first: Option<nat>, rest: seq<Option<nat>>)
    ensures Rolled(first, rest) == if first.Some? then Some(first.value + KnownSum(rest)) else None
  {
    if rest != [] {
      RolledMeans(first, rest[..|rest| - 1]);
    }
  }

  lemma {:induction false} KnownSumCons(first: Option<nat>, rest: seq<Option<nat>>)
    ensures KnownSum([first] + rest) == (if first.Some? then first.value else 0) + KnownSum(rest)
  {
    if rest != [] {
      var n := |rest| - 1;
      assert ([first] + rest)[..n + 1] == [first] + rest[..n];
      KnownSumCons(first, rest[..n]);
    } else {
      assert [first] + rest == [first];
    }
  }

  /** The claimed SQL semantics hold exactly when an unknown did not open a batch that later saw a known value. */
  lemma RolledIsSqlSumIff(first: Option<nat>, rest: seq<Option<nat>>)
    ensures Rolled(first, rest) == SqlSum([first] + rest) <==> first.Some? || AllUnknown(rest)
  {
    RolledMeans(first, rest);
    KnownSumCons(first, rest);
    assert forall k :: 0 <= k < |rest| ==> ([first] + rest)[k + 1] == rest[k];
    assert ([first] + rest)[0] == first;
  }

  // ---------------------------------------------------------------- the buffer

  /** One buffered or sendable record; a stamp of 0 is an absent `coalesced_before`. */
  datatype Entry = ActionEntry(id: nat) | TraceEntry(id: nat, isObject: bool, stamp: nat) | UsageEntry(sum: Usage)

  datatype Buffer = Buffer(actions: seq<Entry>, traces: seq<Entry>, droppedTraces: nat, usage: seq<Usage>)

  const EMPTY := Buffer([], [], 0, [])

  function Batched(usage: seq<Usage>, entry: Usage): seq<Usage> {
    if usage == [] then [entry]
    else if usage[0].key == entry.key then [Merge(usage[0], entry)] + usage[1..]
    else [usage[0]] + Batched(usage[1..], entry)
  }

  function TraceExcess(buffer: Buffer): nat {
    if |buffer.traces| >= TRACE_CAPACITY then |buffer.traces| - TRACE_CAPACITY + 1 else 0
  }

  /** The stamp a new trace carries: every drop not yet reported, if it can carry one. */
  function StampFor(buffer: Buffer, isObject: bool): nat {
    if isObject then buffer.droppedTraces + TraceExcess(buffer) else 0
  }

  function TracePushed(buffer: Buffer, id: nat, isObject: bool): Buffer {
    var dropped := buffer.droppedTraces + TraceExcess(buffer);
    buffer.(traces := buffer.traces[TraceExcess(buffer)..] + [TraceEntry(id, isObject, StampFor(buffer, isObject))],
    droppedTraces := if isObject then 0 else dropped)
  }

  function UsageEntries(usage: seq<Usage>): seq<Entry> {
    if usage == [] then [] else [UsageEntry(usage[0])] + UsageEntries(usage[1..])
  }

  /** Everything held, as one drain would send it. */
  function Contents(buffer: Buffer): seq<Entry> {
    buffer.actions + buffer.traces + UsageEntries(buffer.usage)
  }

  function OnlyActions(entries: seq<Entry>): seq<Entry> {
    if entries == [] then []
    else (if entries[0].ActionEntry? then [entries[0]] else []) + OnlyActions(entries[1..])
  }

  function OnlyTraces(entries: seq<Entry>): seq<Entry> {
    if entries == [] then []
    else (if entries[0].TraceEntry? then [entries[0]] else []) + OnlyTraces(entries[1..])
  }

  function Rebatched(usage: seq<Usage>, entries: seq<Entry>): seq<Usage>
    decreases |entries|
  {
    if entries == [] then usage
    else Rebatched(if entries[0].UsageEntry? then Batched(usage, entries[0].sum) else usage, entries[1..])
  }

  function Requeued(buffer: Buffer, entries: seq<Entry>): Buffer {
    buffer.(actions := OnlyActions(entries) + buffer.actions,
    traces := OnlyTraces(entries) + buffer.traces,
    usage := Rebatched(buffer.usage, entries))
  }

  lemma Peel(entries: seq<Entry>, usage: seq<Usage>, i: nat)
    requires i < |entries|
    ensures var e := entries[i];
            && OnlyActions(entries[i..]) == (if e.ActionEntry? then [e] else []) + OnlyActions(entries[i + 1..])
            && OnlyTraces(entries[i..]) == (if e.TraceEntry? then [e] else []) + OnlyTraces(entries[i + 1..])
            && Rebatched(usage, entries[i..]) == Rebatched(if e.UsageEntry? then Batched(usage, e.sum) else usage, entries[i + 1..])
  {
    assert entries[i..][1..] == entries[i + 1..];
  }

  lemma PeeledAll(entries: seq<Entry>, usage: seq<Usage>)
    requires entries == []
    ensures OnlyActions(entries) == OnlyTraces(entries) == [] && Rebatched(usage, entries) == usage
  {
  }

  class LedgerBuffer {
    var actions: seq<Entry>
    var traces: seq<Entry>
    var droppedTraces: nat
    var usage: seq<Usage>

    ghost function Held(): Buffer
      reads this
    {
      Buffer(actions, traces, droppedTraces, usage)
    }

    constructor ()
      ensures Held() == EMPTY
    {
      actions, traces, droppedTraces, usage := [], [], 0, [];
    }

    method TryPushAction(id: nat) returns (admitted: bool)
      modifies this
      ensures admitted <==> |old(actions)| < ACTION_CAPACITY
      ensures Held() == if admitted then old(Held()).(actions := old(actions) + [ActionEntry(id)]) else old(Held())
    {
      if |actions| >= ACTION_CAPACITY {
        return false;
      }
      actions := actions + [ActionEntry(id)];
      return true;
    }

    method SacrificeActions(count: nat) returns (dropped: seq<Entry>)
      modifies this
      ensures dropped + actions == old(actions)
      ensures |dropped| == if count < |old(actions)| then count else |old(actions)|
      ensures Held() == old(Held()).(actions := actions)
    {
      dropped := [];
      for i := 0 to count
        invariant dropped + actions == old(actions)
        invariant |dropped| == if i < |old(actions)| then i else |old(actions)|
        invariant Held() == old(Held()).(actions := actions)
      {
        if actions != [] {
          dropped := dropped + [actions[0]];
          actions := actions[1..];
        }
      }
    }

    method PushTrace(id: nat, isObject: bool)
      modifies this
      ensures Held() == TracePushed(old(Held()), id, isObject)
    {
      ghost var n := 0;
      while |traces| >= TRACE_CAPACITY
        invariant n <= TraceExcess(old(Held())) && traces == old(traces)[n..]
        invariant droppedTraces == old(droppedTraces) + n && actions == old(actions) && usage == old(usage)
        decreases |traces|
      {
        traces := traces[1..];
        droppedTraces := droppedTraces + 1;
        n := n + 1;
      }
      var stamp := 0;
      if droppedTraces > 0 && isObject {
        stamp := droppedTraces;
        droppedTraces := 0;
      }
      traces := traces + [TraceEntry(id, isObject, stamp)];
    }

    method PushUsage(entry: Usage)
      modifies this
      ensures Held() == old(Held()).(usage := Batched(old(usage), entry))
    {
      var i := 0;
      while i < |usage| && usage[i].key != entry.key
        invariant 0 <= i <= |usage| && Held() == old(Held())
        invariant Batched(usage, entry) == usage[..i] + Batched(usage[i..], entry)
      {
        assert usage[..i] + [usage[i]] == usage[..i + 1] && usage[i..][1..] == usage[i + 1..];
        i := i + 1;
      }
      if i < |usage| {
        assert usage[i..][1..] == usage[i + 1..];
        usage := usage[i := Merge(usage[i], entry)];
      } else {
        usage := usage + [entry];
      }
    }

    method Drain() returns (drained: seq<Entry>)
      modifies this
      ensures drained == Contents(old(Held()))
      ensures Held() == EMPTY.(droppedTraces := old(droppedTraces))
    {
      drained := actions + traces;
      assert drained + UsageEntries(usage) == Contents(Held());
      actions, traces := [], [];
      while usage != []
        invariant drained + UsageEntries(usage) == Contents(old(Held()))
        invariant actions == [] && traces == [] && droppedTraces == old(droppedTraces)
        decreases |usage|
      {
        drained := drained + [UsageEntry(usage[0])];
        usage := usage[1..];
      }
    }

    method Requeue(entries: seq<Entry>)
      modifies this
      ensures Held() == Requeued(old(Held()), entries)
    {
      hide OnlyActions, OnlyTraces, Rebatched, Batched;
      var backActions, backTraces: seq<Entry> := [], [];
      var i := 0;
      assert entries[0..] == entries;
      while i < |entries|
        invariant 0 <= i <= |entries|
        invariant actions == old(actions) && traces == old(traces) && droppedTraces == old(droppedTraces)
        invariant backActions + OnlyActions(entries[i..]) == OnlyActions(entries)
        invariant backTraces + OnlyTraces(entries[i..]) == OnlyTraces(entries)
        invariant Rebatched(usage, entries[i..]) == Rebatched(old(usage), entries)
      {
        Peel(entries, usage, i);
        ghost var restActions, restTraces := OnlyActions(entries[i + 1..]), OnlyTraces(entries[i + 1..]);
        match entries[i] {
          case ActionEntry(_) =>
            assert backActions + ([entries[i]] + restActions) == backActions + [entries[i]] + restActions;
            assert [] + restTraces == restTraces;
            backActions := backActions + [entries[i]];
          case TraceEntry(_, _, _) =>
            assert backTraces + ([entries[i]] + restTraces) == backTraces + [entries[i]] + restTraces;
            assert [] + restActions == restActions;
            backTraces := backTraces + [entries[i]];
          case UsageEntry(sum) =>
            assert [] + restActions == restActions && [] + restTraces == restTraces;
            PushUsage(sum);
        }
        i := i + 1;
      }
      PeeledAll(entries[i..], usage);
      assert backActions + [] == backActions && backTraces + [] == backTraces;
      actions := backActions + actions;
      traces := backTraces + traces;
    }
  }
}
