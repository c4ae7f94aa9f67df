/** Ticket dependencies: the three-colour cycle check, and the longest chain it makes safe to compute. */
module Tickets {
  import opened Domain

  datatype Ticket = Ticket(
    key: string,
    epic: string,
    after: seq<string>,
    gatedBy: seq<string>,
    state: string,
    markedBlocked: bool,
    refine: bool,
    refined: bool)

  /** The two dictionaries the check walks: a ticket's prerequisites, an epic's members and gates. */
  datatype Deps = Deps(graph: map<string, seq<string>>, members: map<string, seq<string>>)
  {
    function Next(node: string): seq<string> {
      if node in graph then graph[node] else if node in members then members[node] else []
    }

    ghost function Nodes(): set<string> {
      graph.Keys + members.Keys
      + (set k, b | k in graph && b in graph[k] :: b)
      + (set k, b | k in members && b in members[k] :: b)
    }

    lemma NodesClosed(node: string, b: string)
      requires b in Next(node)
      ensures node in Nodes() && b in Nodes()
    {
    }
  }

  // ---------------------------------------------------------------- building the dictionaries

  function GraphOf(tickets: seq<Ticket>): map<string, seq<string>> {
    if tickets == [] then map[]
    else
      var t := tickets[|tickets| - 1];
      GraphOf(tickets[..|tickets| - 1])[t.key := t.after + t.gatedBy]
  }

  function EpicKeys(tickets: seq<Ticket>, epic: string): seq<string> {
    if tickets == [] then []
    else
      var t := tickets[|tickets| - 1];
      EpicKeys(tickets[..|tickets| - 1], epic) + if t.epic == epic then [t.key] else []
  }

  /** Every epic's tickets, then the gates its container declares. */
  function MembersOf(tickets: seq<Ticket>, containers: map<string, seq<string>>): map<string, seq<string>> {
    map epic | epic in (set t | t in tickets :: t.epic) + containers.Keys ::
      EpicKeys(tickets, epic) + if epic in containers then containers[epic] else []
  }

  function DepsOf(tickets: seq<Ticket>, containers: map<string, seq<string>>): Deps {
    Deps(GraphOf(tickets), MembersOf(tickets, containers))
  }

  /** Loading refuses two entries that share an id or a file name. */
  predicate DistinctKeys(tickets: seq<Ticket>) {
    forall j, k :: 0 <= j < k < |tickets| ==> tickets[j].key != tickets[k].key
  }

  lemma {:induction false} GraphHolds(tickets: seq<Ticket>, k: nat)
    requires DistinctKeys(tickets) && k < |tickets|
    ensures tickets[k].key in GraphOf(tickets)
    ensures GraphOf(tickets)[tickets[k].key] == tickets[k].after + tickets[k].gatedBy
  {
    if k < |tickets| - 1 {
      GraphHolds(tickets[..|tickets| - 1], k);
    }
  }

  lemma {:induction false} GraphKeys(tickets: seq<Ticket>, key: string)
    ensures key in GraphOf(tickets) <==> exists k :: 0 <= k < |tickets| && tickets[k].key == key
  {
    if tickets != [] {
      GraphKeys(tickets[..|tickets| - 1], key);
      assert tickets[|tickets| - 1].key == key ==> exists k :: 0 <= k < |tickets| && tickets[k].key == key;
    }
  }

  /** From a ticket the check goes to its own prerequisites, even where an epic shares its key. */
  lemma TicketNext(tickets: seq<Ticket>, containers: map<string, seq<string>>, k: nat)
    requires DistinctKeys(tickets) && k < |tickets|
    ensures DepsOf(tickets, containers).Next(tickets[k].key) == tickets[k].after + tickets[k].gatedBy
  {
    hide GraphOf, MembersOf;
    GraphHolds(tickets, k);
  }

  // ---------------------------------------------------------------- paths and cycles

  ghost predicate IsPath(g: Deps, p: seq<string>) {
    forall k :: 0 <= k < |p| - 1 ==> p[k + 1] in g.Next(p[k])
  }

  /** From an epic the check goes to its own tickets and to what its container waits for. */
  lemma EpicNext(tickets: seq<Ticket>, containers: map<string, seq<string>>, epic: string, b: string)
    requires epic !in GraphOf(tickets)
    ensures b in DepsOf(tickets, containers).Next(epic) <==>
            || (exists k :: 0 <= k < |tickets| && tickets[k].epic == epic && tickets[k].key == b)
            || (epic in containers && b in containers[epic])
  {
    EpicKeysHold(tickets, epic, b);
    if k :| 0 <= k < |tickets| && tickets[k].epic == epic && tickets[k].key == b {
      assert tickets[k] in tickets;
    }
  }

  lemma {:induction false} EpicKeysHold(tickets: seq<Ticket>, epic: string, b: string)
    ensures b in EpicKeys(tickets, epic) <==> exists k :: 0 <= k < |tickets| && tickets[k].epic == epic && tickets[k].key == b
  {
    if tickets != [] {
      var n := |tickets| - 1;
      EpicKeysHold(tickets[..n], epic, b);
      assert forall k :: 0 <= k < n ==> tickets[..n][k] == tickets[k];
    }
  }

  /** A path from one of `roots` that comes back to a node it has already passed. */
  ghost predicate ClosesCycle(g: Deps, roots: seq<string>, p: seq<string>) {
    && |p| >= 2 && p[0] in roots
    && IsPath(g, p)
    && p[|p| - 1] in p[..|p| - 1]
  }

  ghost predicate Cyclic(g: Deps, roots: seq<string>) {
    exists p: seq<string> :: ClosesCycle(g, roots, p)
  }

  /** Everything a node needs comes earlier, and nothing is listed twice. */
  ghost predicate Topological(g: Deps, order: seq<string>) {
    && (forall j, k :: 0 <= j < k < |order| ==> order[j] != order[k])
    && (forall k, b :: 0 <= k < |order| && b in g.Next(order[k]) ==> b in order[..k])
  }

  lemma {:induction false} PathDescends(g: Deps, order: seq<string>, p: seq<string>, i: nat, k: nat)
    requires Topological(g, order) && IsPath(g, p) && |p| > 0
    requires k < |p| && i < |order| && order[i] == p[0]
    ensures p[k] in order[..i + 1]
    ensures k > 0 ==> p[k] in order[..i]
    decreases k
  {
    if k > 0 {
      PathDescends(g, order, p, i, k - 1);
      var j :| 0 <= j < i + 1 && order[j] == p[k - 1];
      assert p[k] in order[..j];
    }
  }

  /** A topological order of everything reachable rules every cycle out. */
  lemma OrderExcludesCycles(g: Deps, roots: seq<string>, order: seq<string>)
    requires Topological(g, order) && forall r :: r in roots ==> r in order
    ensures !Cyclic(g, roots)
  {
    forall p | ClosesCycle(g, roots, p) ensures false {
      var m :| 0 <= m < |p| - 1 && p[m] == p[|p| - 1];
      var i :| 0 <= i < |order| && order[i] == p[0];
      PathDescends(g, order, p, i, m);
      var j :| 0 <= j < |order| && order[j] == p[m];
      assert IsPath(g, p[m..]);
      PathDescends(g, order, p[m..], j, |p| - 1 - m);
    }
  }

  // ---------------------------------------------------------------- the check

  datatype Colour = Active | Done

  ghost predicate Consistent(g: Deps, state: map<string, Colour>, active: seq<string>, order: seq<string>) {
    && Topological(g, order)
    && (forall n :: n in state && state[n] == Done <==> n in order)
    && (forall n :: n in state && state[n] == Active <==> n in active)
    && (forall n :: n in state ==> n in g.Nodes())
  }

  lemma Activate(g: Deps, state: map<string, Colour>, path: seq<string>, order: seq<string>, node: string)
    requires Consistent(g, state, path, order) && node !in state && node in g.Nodes()
    ensures Consistent(g, state[node := Active], path + [node], order) && node !in path
  {
  }

  lemma Finish(g: Deps, state: map<string, Colour>, path: seq<string>, order: seq<string>, node: string)
    requires Consistent(g, state, path + [node], order) && node !in path
    requires forall b :: b in g.Next(node) ==> b in order
    ensures Consistent(g, state[node := Done], path, order + [node])
  {
    assert node in path + [node];
    assert forall k :: 0 <= k < |order| ==> (order + [node])[..k] == order[..k];
    assert (order + [node])[..|order|] == order;
  }

  /** `p` continues `prefix` and comes back to a node it has already passed. */
  ghost predicate Closes(g: Deps, prefix: seq<string>, p: seq<string>) {
    prefix <= p && |p| >= 2 && IsPath(g, p) && p[|p| - 1] in p[..|p| - 1]
  }

  lemma KnownColour(g: Deps, state: map<string, Colour>, path: seq<string>, order: seq<string>, node: string)
    requires Consistent(g, state, path, order) && node in state && IsPath(g, path + [node])
    ensures state[node] == Done ==> node in order
    ensures state[node] == Active ==> Closes(g, path + [node], path + [node])
  {
    assert (path + [node])[..|path|] == path;
  }

  lemma ClosesShorter(g: Deps, prefix: seq<string>, b: string, p: seq<string>)
    requires Closes(g, prefix + [b], p)
    ensures Closes(g, prefix, p)
  {
    assert prefix == (prefix + [b])[..|prefix|];
  }

  /** Visits `node`, reached along `path`; a cycle is reported as the path that closes it. */
  method Visit(g: Deps, node: string, path: seq<string>, state: map<string, Colour>, ghost order: seq<string>)
    returns (state': map<string, Colour>, cycle: Option<seq<string>>, ghost order': seq<string>)
    requires Consistent(g, state, path, order)
    requires IsPath(g, path + [node]) && node in g.Nodes()
    ensures cycle.None? ==>
              && Consistent(g, state', path, order')
              && order <= order' && node in order'
              && state.Keys <= state'.Keys
    ensures cycle.Some? ==> Closes(g, path + [node], cycle.value)
    decreases g.Nodes() - state.Keys
  {
    hide Consistent, IsPath, Closes, Deps.Nodes, Deps.Next;
    state', cycle, order' := state, None, order;
    if node in state && state[node] == Done {
      KnownColour(g, state, path, order, node);
      return;
    }
    if node in state && state[node] == Active {
      KnownColour(g, state, path, order, node);
      return state, Some(path + [node]), order;
    }
    Activate(g, state, path, order, node);
    state' := state'[node := Active];
    var next := g.Next(node);
    var i := 0;
    while i < |next|
      invariant 0 <= i <= |next| && cycle.None?
      invariant Consistent(g, state', path + [node], order')
      invariant order <= order' && state.Keys <= state'.Keys && node in state'.Keys
      invariant forall k :: 0 <= k < i ==> next[k] in order'
    {
      Extend(g, path + [node], next[i]);
      ghost var before := order';
      Progress(g.Nodes(), state.Keys, state'.Keys, node);
      state', cycle, order' := Visit(g, next[i], path + [node], state', order');
      if cycle.Some? {
        ClosesShorter(g, path + [node], next[i], cycle.value);
        return;
      }
      StillListed(next, i, before, order');
      PrefixTransitive(order, before, order');
      i := i + 1;
    }
    Finish(g, state', path, order', node);
    PrefixTransitive(order, order', order' + [node]);
    state' := state'[node := Done];
    order' := order' + [node];
  }

  lemma Progress(nodes: set<string>, seen: set<string>, more: set<string>, node: string)
    requires node in nodes && node !in seen && node in more && seen <= more
    ensures nodes - more < nodes - seen
  {
    assert node in nodes - seen;
  }

  lemma PrefixTransitive(a: seq<string>, b: seq<string>, c: seq<string>)
    requires a <= b <= c
    ensures a <= c
  {
  }

  lemma StillListed(next: seq<string>, i: nat, before: seq<string>, after: seq<string>)
    requires i < |next| && before <= after && next[i] in after
    requires forall k :: 0 <= k < i ==> next[k] in before
    ensures forall k :: 0 <= k < i + 1 ==> next[k] in after
  {
    assert after == before + after[|before|..];
  }

  lemma Extend(g: Deps, path: seq<string>, b: string)
    requires path != [] && IsPath(g, path) && b in g.Next(path[|path| - 1])
    ensures IsPath(g, path + [b]) && b in g.Nodes()
  {
    g.NodesClosed(path[|path| - 1], b);
  }

  /** Raises, with the offending path, exactly when a cycle is reachable from some ticket. */
  method CheckCycles(g: Deps, roots: seq<string>) returns (cycle: Option<seq<string>>, ghost order: seq<string>)
    requires forall r :: r in roots ==> r in g.graph
    ensures cycle.Some? <==> Cyclic(g, roots)
    ensures cycle.Some? ==> ClosesCycle(g, roots, cycle.value)
    ensures cycle.None? ==> Topological(g, order) && forall r :: r in roots ==> r in order
  {
    var state: map<string, Colour> := map[];
    order := [];
    cycle := None;
    StartConsistent(g);
    hide Consistent, IsPath, Cyclic, ClosesCycle, Closes, Topological;
    var i := 0;
    while i < |roots|
      invariant 0 <= i <= |roots| && cycle.None?
      invariant Consistent(g, state, [], order)
      invariant forall k :: 0 <= k < i ==> roots[k] in order
    {
      OnePath(g, roots[i]);
      ghost var before := order;
      state, cycle, order := Visit(g, roots[i], [], state, order);
      if cycle.Some? {
        FoundCycle(g, roots, roots[i], cycle.value);
        return;
      }
      assert order == before + order[|before|..];
      i := i + 1;
    }
    FinishedOrder(g, state, order);
    OrderExcludesCycles(g, roots, order);
  }

  lemma StartConsistent(g: Deps)
    ensures Consistent(g, map[], [], [])
  {
  }

  lemma OnePath(g: Deps, node: string)
    ensures IsPath(g, [] + [node])
  {
  }

  lemma FoundCycle(g: Deps, roots: seq<string>, root: string, p: seq<string>)
    requires Closes(g, [] + [root], p) && root in roots
    ensures ClosesCycle(g, roots, p) && Cyclic(g, roots)
  {
    assert p[0] == ([] + [root])[0];
    assert ClosesCycle(g, roots, p);
  }

  lemma FinishedOrder(g: Deps, state: map<string, Colour>, order: seq<string>)
    requires Consistent(g, state, [], order)
    ensures Topological(g, order)
  {
  }

  // ---------------------------------------------------------------- the longest remaining chain

  predicate Unfinished(t: Ticket) {
    t.state != "done" && t.state != "dropped"
  }

  /** The unfinished tickets by key. */
  function Remaining(tickets: seq<Ticket>): map<string, Ticket> {
    if tickets == [] then map[]
    else
      var t := tickets[|tickets| - 1];
      var rest := Remaining(tickets[..|tickets| - 1]);
      if Unfinished(t) then rest[t.key := t] else rest
  }

  lemma {:induction false} RemainingHolds(tickets: seq<Ticket>, key: string)
    requires DistinctKeys(tickets)
    ensures key in Remaining(tickets) <==>
            exists k :: 0 <= k < |tickets| && tickets[k].key == key && tickets[k].state !in {"done", "dropped"}
    ensures key in Remaining(tickets) ==>
              && Remaining(tickets)[key].key == key && Remaining(tickets)[key] in tickets
  {
    if tickets != [] {
      var n := |tickets| - 1;
      RemainingHolds(tickets[..n], key);
      assert tickets[n] in tickets;
      assert forall k :: 0 <= k < n ==> tickets[..n][k] == tickets[k];
    }
  }

  /** A prerequisite path of unfinished tickets, earliest work first, ending at `key`. */
  ghost predicate IsChain(remaining: map<string, Ticket>, p: seq<string>, key: string) {
    && p != [] && p[|p| - 1] == key
    && (forall k :: 0 <= k < |p| ==> p[k] in remaining)
    && (forall k :: 0 <= k < |p| - 1 ==> p[k] in remaining[p[k + 1]].after + remaining[p[k + 1]].gatedBy)
  }

  ghost predicate IsLongest(remaining: map<string, Ticket>, p: seq<string>, key: string) {
    && IsChain(remaining, p, key)
    && forall q :: IsChain(remaining, q, key) ==> |q| <= |p|
  }

  ghost predicate Memoised(remaining: map<string, Ticket>, memo: map<string, seq<string>>) {
    forall key :: key in memo ==> key in remaining && IsLongest(remaining, memo[key], key)
  }

  /** Every prerequisite of an unfinished ticket comes earlier in `order`. */
  ghost predicate Ranked(remaining: map<string, Ticket>, order: seq<string>) {
    forall k, b ::
      (0 <= k < |order| && order[k] in remaining && b in remaining[order[k]].after + remaining[order[k]].gatedBy)
      ==> b in order[..k]
  }

  lemma ChainStep(remaining: map<string, Ticket>, p: seq<string>, b: string, key: string)
    requires IsChain(remaining, p, b) && key in remaining && b in remaining[key].after + remaining[key].gatedBy
    ensures IsChain(remaining, p + [key], key)
  {
  }

  lemma ChainTail(remaining: map<string, Ticket>, q: seq<string>, key: string)
    requires IsChain(remaining, q, key) && |q| > 1
    ensures var b := q[|q| - 2];
            b in remaining[key].after + remaining[key].gatedBy && IsChain(remaining, q[..|q| - 1], b)
  {
  }

  /** `rank` is where `key` sits in the finish order of the cycle check: the reason the recursion ends. */
  method Chain(remaining: map<string, Ticket>, key: string, memo: map<string, seq<string>>, ghost order: seq<string>, ghost rank: nat)
    returns (chain: seq<string>, memo': map<string, seq<string>>)
    requires key in remaining && Memoised(remaining, memo)
    requires Ranked(remaining, order) && rank < |order| && order[rank] == key
    ensures IsLongest(remaining, chain, key) && Memoised(remaining, memo')
    decreases rank
  {
    hide IsChain;
    memo' := memo;
    if key in memo {
      return memo[key], memo;
    }
    var best: seq<string> := [];
    var deps := remaining[key].after + remaining[key].gatedBy;
    var i := 0;
    while i < |deps|
      invariant 0 <= i <= |deps| && Memoised(remaining, memo')
      invariant best == [] || exists k :: 0 <= k < i && IsChain(remaining, best, deps[k])
      invariant forall k, q :: 0 <= k < i && IsChain(remaining, q, deps[k]) ==> |q| <= |best|
    {
      if deps[i] in remaining {
        assert deps[i] in order[..rank];
        ghost var j :| 0 <= j < rank && order[j] == deps[i];
        var c;
        c, memo' := Chain(remaining, deps[i], memo', order, j);
        if |c| > |best| {
          best := c;
        }
      } else {
        NotAChain(remaining, deps[i]);
      }
      i := i + 1;
    }
    chain := best + [key];
    ChainIsLongest(remaining, key, deps, best);
    memo' := memo'[key := chain];
  }

  lemma NotAChain(remaining: map<string, Ticket>, b: string)
    requires b !in remaining
    ensures forall q :: !IsChain(remaining, q, b)
  {
  }

  lemma ChainIsLongest(remaining: map<string, Ticket>, key: string, deps: seq<string>, best: seq<string>)
    requires key in remaining && deps == remaining[key].after + remaining[key].gatedBy
    requires best == [] || exists k :: 0 <= k < |deps| && IsChain(remaining, best, deps[k])
    requires forall k, q :: 0 <= k < |deps| && IsChain(remaining, q, deps[k]) ==> |q| <= |best|
    ensures IsLongest(remaining, best + [key], key)
  {
    if k :| 0 <= k < |deps| && IsChain(remaining, best, deps[k]) {
      ChainStep(remaining, best, deps[k], key);
    }
    forall q | IsChain(remaining, q, key) ensures |q| <= |best| + 1 {
      if |q| > 1 {
        ChainTail(remaining, q, key);
        var k :| 0 <= k < |deps| && deps[k] == q[|q| - 2];
        assert IsChain(remaining, q[..|q| - 1], deps[k]);
      }
    }
  }

  predicate InScope(scope: Option<string>, t: Ticket) {
    scope.None? || scope.value == t.epic
  }

  /** The longest chain that ends at an in-scope unfinished ticket; empty only when there is none. */
  ghost predicate LongestInScope(tickets: seq<Ticket>, scope: Option<string>, p: seq<string>) {
    var remaining := Remaining(tickets);
    && (p == [] || exists t :: t in tickets && (scope.Some? ==> t.epic == scope.value) && IsChain(remaining, p, t.key))
    && (forall t, q :: t in tickets && (scope.Some? ==> t.epic == scope.value) && IsChain(remaining, q, t.key) ==> |q| <= |p|)
  }

  method LongestRemainingChain(tickets: seq<Ticket>, scope: Option<string>, ghost order: seq<string>)
    returns (longest: seq<string>)
    requires Ranked(Remaining(tickets), order) && forall key :: key in Remaining(tickets) ==> key in order
    ensures LongestInScope(tickets, scope, longest)
  {
    hide IsChain;
    var remaining := Remaining(tickets);
    var memo: map<string, seq<string>> := map[];
    longest := [];
    var i := 0;
    while i < |tickets|
      invariant 0 <= i <= |tickets| && Memoised(remaining, memo)
      invariant longest == [] || exists k :: 0 <= k < i && InScope(scope, tickets[k]) && IsChain(remaining, longest, tickets[k].key)
      invariant forall k, q :: 0 <= k < i && InScope(scope, tickets[k]) && IsChain(remaining, q, tickets[k].key) ==> |q| <= |longest|
    {
      var t := tickets[i];
      if t.key !in remaining {
        NotAChain(remaining, t.key);
      } else if InScope(scope, t) {
        ghost var rank :| 0 <= rank < |order| && order[rank] == t.key;
        var c;
        c, memo := Chain(remaining, t.key, memo, order, rank);
        if |c| > |longest| {
          longest := c;
        }
      }
      i := i + 1;
    }
  }

  function Keys(tickets: seq<Ticket>): (keys: seq<string>)
    ensures |keys| == |tickets| && forall k :: 0 <= k < |keys| ==> keys[k] == tickets[k].key
  {
    seq(|tickets|, k requires 0 <= k < |tickets| => tickets[k].key)
  }

  /** The finish order of a passed check ranks the unfinished tickets. */
  lemma PassedCheckRanks(tickets: seq<Ticket>, containers: map<string, seq<string>>, order: seq<string>)
    requires DistinctKeys(tickets) && Topological(DepsOf(tickets, containers), order)
    requires forall key :: key in Keys(tickets) ==> key in order
    ensures Ranked(Remaining(tickets), order) && forall key :: key in Remaining(tickets) ==> key in order
  {
    var remaining := Remaining(tickets);
    forall key | key in remaining
      ensures key in order && remaining[key].after + remaining[key].gatedBy == DepsOf(tickets, containers).Next(key)
    {
      RemainingHolds(tickets, key);
      var k :| 0 <= k < |tickets| && tickets[k] == remaining[key];
      GraphHolds(tickets, k);
      assert Keys(tickets)[k] == key;
    }
  }

  /** Load, check, then report: refused exactly on a reachable cycle, otherwise the true longest chain. */
  method LoadAndReport(tickets: seq<Ticket>, containers: map<string, seq<string>>, scope: Option<string>)
    returns (report: Option<seq<string>>)
    requires DistinctKeys(tickets)
    ensures report.None? <==> Cyclic(DepsOf(tickets, containers), Keys(tickets))
    ensures report.Some? ==> LongestInScope(tickets, scope, report.value)
  {
    forall key | key in Keys(tickets) ensures key in GraphOf(tickets) {
      GraphKeys(tickets, key);
    }
    var cycle; ghost var order;
    cycle, order := CheckCycles(DepsOf(tickets, containers), Keys(tickets));
    if cycle.Some? {
      return None;
    }
    PassedCheckRanks(tickets, containers, order);
    var longest := LongestRemainingChain(tickets, scope, order);
    return Some(longest);
  }
}
