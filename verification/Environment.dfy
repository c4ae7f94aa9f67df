/** The environment graph: worklist closures over typed edges, with cycles and repeated edges allowed. */
module Environment {
  import Lex

  datatype Relationship =
    | BelongsTo | RunsOn | DependsOn | Provides | Calls | Contains | Owns
    | ManagedBy | Exposes | ConnectedTo | CausedBy | AffectedBy | DeployedBy | DerivedFrom

  predicate IsOwnership(kind: Relationship) {
    kind.RunsOn? || kind.BelongsTo? || kind.ManagedBy? || kind.DeployedBy?
  }

  datatype Edge = Edge(source: string, target: string, kind: Relationship)

  /** The three traversals: which edges they follow, and in which direction. */
  datatype Walk = Dependents | Dependencies | Owners
  {
    predicate Follows(e: Edge) {
      if this.Owners? then IsOwnership(e.kind) else e.kind.DependsOn?
    }

    function Here(e: Edge): string { if this.Dependents? then e.target else e.source }

    function There(e: Edge): string { if this.Dependents? then e.source else e.target }
  }

  // ---------------------------------------------------------------- reachability

  ghost predicate Steps(edges: seq<Edge>, walk: Walk, a: string, b: string) {
    exists e :: e in edges && walk.Follows(e) && walk.Here(e) == a && walk.There(e) == b
  }

  ghost predicate Trail(edges: seq<Edge>, walk: Walk, p: seq<string>) {
    forall k :: 0 <= k < |p| - 1 ==> Steps(edges, walk, p[k], p[k + 1])
  }

  ghost predicate Leads(edges: seq<Edge>, walk: Walk, p: seq<string>, a: string, b: string) {
    |p| >= 2 && p[0] == a && p[|p| - 1] == b && Trail(edges, walk, p)
  }

  /** `b` is one or more followed edges away from `a`. */
  ghost predicate Reachable(edges: seq<Edge>, walk: Walk, a: string, b: string) {
    exists p :: Leads(edges, walk, p, a, b)
  }

  lemma ReachStep(edges: seq<Edge>, walk: Walk, a: string, b: string, c: string)
    requires (a == b || Reachable(edges, walk, a, b)) && Steps(edges, walk, b, c)
    ensures Reachable(edges, walk, a, c)
  {
    if a == b {
      assert Leads(edges, walk, [a, c], a, c);
    } else {
      var p :| Leads(edges, walk, p, a, b);
      assert Leads(edges, walk, p + [c], a, c);
    }
  }

  /** A set that contains the start and is closed under followed edges contains everything reachable. */
  lemma {:induction false} ClosedContains(edges: seq<Edge>, walk: Walk, closed: set<string>, p: seq<string>)
    requires p != [] && p[0] in closed && Trail(edges, walk, p)
    requires forall v, w :: v in closed && Steps(edges, walk, v, w) ==> w in closed
    ensures p[|p| - 1] in closed
  {
    if |p| > 1 {
      assert Steps(edges, walk, p[0], p[1]);
      assert Trail(edges, walk, p[1..]) by {
        forall k | 0 <= k < |p[1..]| - 1 ensures Steps(edges, walk, p[1..][k], p[1..][k + 1]) {
          assert Steps(edges, walk, p[k + 1], p[k + 2]);
        }
      }
      ClosedContains(edges, walk, closed, p[1..]);
    }
  }

  function Backwards(p: seq<string>): (r: seq<string>)
    ensures |r| == |p| && forall k :: 0 <= k < |r| ==> r[k] == p[|p| - 1 - k]
  {
    seq(|p|, k requires 0 <= k < |p| => p[|p| - 1 - k])
  }

  lemma LeadsBack(edges: seq<Edge>, p: seq<string>, a: string, b: string)
    ensures Leads(edges, Dependencies, p, a, b) ==> Leads(edges, Dependents, Backwards(p), b, a)
    ensures Leads(edges, Dependents, p, b, a) ==> Leads(edges, Dependencies, Backwards(p), a, b)
  {
    forall x, y ensures Steps(edges, Dependencies, x, y) <==> Steps(edges, Dependents, y, x) {
    }
    var r := Backwards(p);
    if Leads(edges, Dependencies, p, a, b) {
      forall k | 0 <= k < |r| - 1 ensures Steps(edges, Dependents, r[k], r[k + 1]) {
        assert Steps(edges, Dependencies, p[|p| - 2 - k], p[|p| - 2 - k + 1]);
      }
    }
    if Leads(edges, Dependents, p, b, a) {
      forall k | 0 <= k < |r| - 1 ensures Steps(edges, Dependencies, r[k], r[k + 1]) {
        assert Steps(edges, Dependents, p[|p| - 2 - k], p[|p| - 2 - k + 1]);
      }
    }
  }

  /** Duality: `a` depends on `b` exactly when `b` has `a` among its dependents. */
  lemma DependencyDuality(edges: seq<Edge>, a: string, b: string)
    ensures Reachable(edges, Dependencies, a, b) <==> Reachable(edges, Dependents, b, a)
  {
    if p :| Leads(edges, Dependencies, p, a, b) {
      LeadsBack(edges, p, a, b);
    }
    if p :| Leads(edges, Dependents, p, b, a) {
      LeadsBack(edges, p, a, b);
    }
  }

  // ---------------------------------------------------------------- the same, edge by edge

  /** A chain of the graph's edges that leads from one resource to another, source to target. */
  ghost predicate EdgePath(edges: seq<Edge>, es: seq<Edge>, a: string, b: string) {
    && es != [] && es[0].source == a && es[|es| - 1].target == b
    && (forall k :: 0 <= k < |es| ==> es[k] in edges)
    && (forall k :: 0 <= k < |es| - 1 ==> es[k].target == es[k + 1].source)
  }

  /** `a` depends on `b`, directly or through others. */
  ghost predicate Depends(edges: seq<Edge>, a: string, b: string) {
    exists es: seq<Edge> :: EdgePath(edges, es, a, b) && forall k :: 0 <= k < |es| ==> es[k].kind == DependsOn
  }

  /** `a` runs on, belongs to, is managed or is deployed by `b`, directly or through others. */
  ghost predicate OwnedThrough(edges: seq<Edge>, a: string, b: string) {
    exists es: seq<Edge> :: EdgePath(edges, es, a, b) && forall k :: 0 <= k < |es| ==> es[k].kind in {RunsOn, BelongsTo, ManagedBy, DeployedBy}
  }

  lemma {:induction false} TrailIsEdges(edges: seq<Edge>, walk: Walk, p: seq<string>, a: string, b: string) returns (es: seq<Edge>)
    requires !walk.Dependents? && Leads(edges, walk, p, a, b)
    ensures EdgePath(edges, es, a, b) && forall k :: 0 <= k < |es| ==> walk.Follows(es[k])
    decreases |p|
  {
    assert Steps(edges, walk, p[0], p[0 + 1]);
    var e :| e in edges && walk.Follows(e) && walk.Here(e) == p[0] && walk.There(e) == p[1];
    es := [e];
    if |p| > 2 {
      assert Leads(edges, walk, p[1..], p[1], b) by {
        hide Steps;
        forall k | 0 <= k < |p[1..]| - 1 ensures Steps(edges, walk, p[1..][k], p[1..][k + 1]) {
          assert Steps(edges, walk, p[k + 1], p[k + 1 + 1]);
        }
      }
      hide Steps, Leads;
      var rest := TrailIsEdges(edges, walk, p[1..], p[1], b);
      es := [e] + rest;
    }
  }

  lemma EdgesAreTrail(edges: seq<Edge>, walk: Walk, es: seq<Edge>, a: string, b: string)
    requires !walk.Dependents? && EdgePath(edges, es, a, b) && forall k :: 0 <= k < |es| ==> walk.Follows(es[k])
    ensures Reachable(edges, walk, a, b)
  {
    var p := seq(|es| + 1, k requires 0 <= k < |es| + 1 => if k == 0 then a else es[k - 1].target);
    forall k | 0 <= k < |p| - 1 ensures Steps(edges, walk, p[k], p[k + 1]) {
      assert es[k] in edges && walk.Here(es[k]) == p[k] && walk.There(es[k]) == p[k + 1];
    }
    assert Leads(edges, walk, p, a, b);
  }

  /** Dependencies follow depends-on edges from source to target, dependents from target to source. */
  lemma DependsIff(edges: seq<Edge>, a: string, b: string)
    ensures Reachable(edges, Dependencies, a, b) <==> Depends(edges, a, b)
    ensures Reachable(edges, Dependents, b, a) <==> Depends(edges, a, b)
  {
    if p :| Leads(edges, Dependencies, p, a, b) {
      var es := TrailIsEdges(edges, Dependencies, p, a, b);
      assert forall k :: 0 <= k < |es| ==> es[k].kind == DependsOn;
    }
    if es: seq<Edge> :| EdgePath(edges, es, a, b) && forall k :: 0 <= k < |es| ==> es[k].kind == DependsOn {
      EdgesAreTrail(edges, Dependencies, es, a, b);
    }
    DependencyDuality(edges, a, b);
  }

  lemma OwnedIff(edges: seq<Edge>, a: string, b: string)
    ensures Reachable(edges, Owners, a, b) <==> OwnedThrough(edges, a, b)
  {
    if p :| Leads(edges, Owners, p, a, b) {
      var es := TrailIsEdges(edges, Owners, p, a, b);
      assert forall k :: 0 <= k < |es| ==> es[k].kind in {RunsOn, BelongsTo, ManagedBy, DeployedBy};
    }
    if es: seq<Edge> :| EdgePath(edges, es, a, b) && forall k :: 0 <= k < |es| ==> es[k].kind in {RunsOn, BelongsTo, ManagedBy, DeployedBy} {
      EdgesAreTrail(edges, Owners, es, a, b);
    }
  }

  /** What each walk lists, in the edges' own fields. */
  ghost predicate Concerns(edges: seq<Edge>, walk: Walk, id: string, x: string) {
    match walk
    case Dependents => Depends(edges, x, id)
    case Dependencies => Depends(edges, id, x)
    case Owners => OwnedThrough(edges, id, x)
  }

  lemma ReachableConcerns(edges: seq<Edge>, walk: Walk, id: string, x: string)
    ensures Reachable(edges, walk, id, x) <==> Concerns(edges, walk, id, x)
  {
    DependsIff(edges, x, id);
    DependsIff(edges, id, x);
    OwnedIff(edges, id, x);
  }

  // ---------------------------------------------------------------- one expansion

  /** The neighbours of `current` not yet visited, in edge order, repeats included. */
  function Fresh(edges: seq<Edge>, walk: Walk, current: string, visited: set<string>): seq<string> {
    if edges == [] then []
    else
      var n := |edges| - 1;
      var e := edges[n];
      Fresh(edges[..n], walk, current, visited)
      + if walk.Here(e) == current && walk.Follows(e) && walk.There(e) !in visited then [walk.There(e)] else []
  }

  lemma {:induction false} FreshMeans(edges: seq<Edge>, walk: Walk, current: string, visited: set<string>, x: string)
    ensures x in Fresh(edges, walk, current, visited) <==> x !in visited && Steps(edges, walk, current, x)
  {
    hide Steps;
    if edges == [] {
      NoSteps(walk, current, x);
    } else {
      var n := |edges| - 1;
      FreshMeans(edges[..n], walk, current, visited, x);
      StepsSnoc(edges[..n], edges[n], walk, current, x);
      assert edges == edges[..n] + [edges[n]];
    }
  }

  lemma NoSteps(walk: Walk, a: string, b: string)
    ensures !Steps([], walk, a, b)
  {
  }

  lemma StepsSnoc(edges: seq<Edge>, e: Edge, walk: Walk, a: string, b: string)
    ensures Steps(edges + [e], walk, a, b) <==> Steps(edges, walk, a, b) || (walk.Follows(e) && walk.Here(e) == a && walk.There(e) == b)
  {
    if f :| f in edges && walk.Follows(f) && walk.Here(f) == a && walk.There(f) == b {
      assert f in edges + [e];
    }
    assert e in edges + [e];
  }

  ghost function Universe(edges: seq<Edge>, id: string): set<string> {
    {id} + (set e | e in edges :: e.source) + set e | e in edges :: e.target
  }

  /** The state of a worklist traversal from `id`. */
  ghost predicate Sweeping(edges: seq<Edge>, walk: Walk, id: string, visited: set<string>, stack: seq<string>, result: seq<string>) {
    && visited <= Universe(edges, id)
    && (id in visited || stack == [id])
    && (visited == {} ==> result == [])
    && (forall x :: x in result ==> x != id && Reachable(edges, walk, id, x))
    && (forall x :: x in result ==> x in visited || x in stack)
    && (forall x :: x in stack || x in visited ==> x == id || x in result)
    && (forall v, w :: v in visited && Steps(edges, walk, v, w) ==> w in visited || w in stack)
  }

  lemma SweepStep(edges: seq<Edge>, walk: Walk, id: string, visited: set<string>, stack: seq<string>, result: seq<string>)
    requires Sweeping(edges, walk, id, visited, stack, result) && stack != []
    ensures var current, rest := stack[|stack| - 1], stack[..|stack| - 1];
            && (current in visited ==> Sweeping(edges, walk, id, visited, rest, result))
            && (current !in visited ==>
                  var news := Fresh(edges, walk, current, visited + {current});
                  Sweeping(edges, walk, id, visited + {current}, rest + news, result + news))
  {
    var current, rest := stack[|stack| - 1], stack[..|stack| - 1];
    assert stack == rest + [current];
    if current !in visited {
      var visited1 := visited + {current};
      var news := Fresh(edges, walk, current, visited1);
      forall x ensures x in news <==> x !in visited1 && Steps(edges, walk, current, x) {
        FreshMeans(edges, walk, current, visited1, x);
      }
      assert current in Universe(edges, id) by {
        if current != id {
          ReachableInUniverse(edges, walk, id, current);
        }
      }
      assert id in visited1;
      forall x | x in news ensures x != id && Reachable(edges, walk, id, x) {
        ReachStep(edges, walk, id, current, x);
      }
    }
  }

  lemma ReachableInUniverse(edges: seq<Edge>, walk: Walk, a: string, b: string)
    requires Reachable(edges, walk, a, b)
    ensures b in Universe(edges, a)
  {
    var p :| Leads(edges, walk, p, a, b);
    assert Steps(edges, walk, p[|p| - 2], p[|p| - 2 + 1]);
  }

  lemma SweepDone(edges: seq<Edge>, walk: Walk, id: string, visited: set<string>, result: seq<string>)
    requires Sweeping(edges, walk, id, visited, [], result)
    ensures forall x :: x in result <==> x != id && Reachable(edges, walk, id, x)
  {
    forall x | x != id && Reachable(edges, walk, id, x) ensures x in result {
      var p :| Leads(edges, walk, p, id, x);
      ClosedContains(edges, walk, visited, p);
    }
  }

  // ---------------------------------------------------------------- how often a node is listed

  /** The followed edges into `y` from a set of nodes, repeats included. */
  function EdgesInto(edges: seq<Edge>, walk: Walk, y: string, nodes: set<string>): nat {
    if edges == [] then 0
    else
      var n := |edges| - 1;
      var e := edges[n];
      EdgesInto(edges[..n], walk, y, nodes)
      + if walk.Follows(e) && walk.There(e) == y && walk.Here(e) in nodes then 1 else 0
  }

  lemma {:induction false} FreshCounts(edges: seq<Edge>, walk: Walk, current: string, visited: set<string>, y: string)
    ensures multiset(Fresh(edges, walk, current, visited))[y] ==
            if y in visited then 0 else EdgesInto(edges, walk, y, {current})
  {
    if edges != [] {
      FreshCounts(edges[..|edges| - 1], walk, current, visited, y);
    }
  }

  lemma {:induction false} EdgesFromBoth(edges: seq<Edge>, walk: Walk, y: string, nodes: set<string>, x: string)
    requires x !in nodes
    ensures EdgesInto(edges, walk, y, nodes + {x}) == EdgesInto(edges, walk, y, nodes) + EdgesInto(edges, walk, y, {x})
  {
    if edges != [] {
      EdgesFromBoth(edges[..|edges| - 1], walk, y, nodes, x);
    }
  }

  lemma {:induction false} EdgesMonotone(edges: seq<Edge>, walk: Walk, y: string, few: set<string>, many: set<string>)
    requires few <= many
    ensures EdgesInto(edges, walk, y, few) <= EdgesInto(edges, walk, y, many)
  {
    if edges != [] {
      EdgesMonotone(edges[..|edges| - 1], walk, y, few, many);
    }
  }

  lemma {:induction false} NoEdgesFromNowhere(edges: seq<Edge>, walk: Walk, y: string)
    ensures EdgesInto(edges, walk, y, {}) == 0
  {
    if edges != [] {
      NoEdgesFromNowhere(edges[..|edges| - 1], walk, y);
    }
  }

  function SetOf(s: seq<string>): set<string> {
    set x | x in s
  }

  /** Each node is listed once for every followed edge from a node expanded before it. */
  ghost predicate Listed(edges: seq<Edge>, walk: Walk, order: seq<string>, found: multiset<string>) {
    forall k :: 0 <= k < |order| ==> found[order[k]] == EdgesInto(edges, walk, order[k], SetOf(order[..k]))
  }

  /** The same during a sweep, when the listed nodes not yet expanded count what has been expanded so far. */
  ghost predicate Counting(edges: seq<Edge>, walk: Walk, order: seq<string>, visited: set<string>, found: multiset<string>) {
    && visited == SetOf(order)
    && (forall j, k :: 0 <= j < k < |order| ==> order[j] != order[k])
    && Listed(edges, walk, order, found)
    && (forall y :: y !in visited ==> found[y] == EdgesInto(edges, walk, y, visited))
  }

  lemma CountingStarts(edges: seq<Edge>, walk: Walk)
    ensures Counting(edges, walk, [], {}, multiset([]))
  {
    forall y: string ensures EdgesInto(edges, walk, y, {}) == 0 {
      NoEdgesFromNowhere(edges, walk, y);
    }
  }

  lemma CountingStep(edges: seq<Edge>, walk: Walk, order: seq<string>, visited: set<string>, result: seq<string>, current: string)
    requires Counting(edges, walk, order, visited, multiset(result)) && current !in visited
    ensures var news := Fresh(edges, walk, current, visited + {current});
            Counting(edges, walk, order + [current], visited + {current}, multiset(result + news))
  {
    hide EdgesInto, Fresh;
    var seen, order1 := visited + {current}, order + [current];
    var news := Fresh(edges, walk, current, seen);
    forall y ensures multiset(result + news)[y] ==
                     multiset(result)[y] + if y in seen then 0 else EdgesInto(edges, walk, y, {current}) {
      FreshCounts(edges, walk, current, seen, y);
    }
    forall y ensures EdgesInto(edges, walk, y, seen) == EdgesInto(edges, walk, y, visited) + EdgesInto(edges, walk, y, {current}) {
      EdgesFromBoth(edges, walk, y, visited, current);
    }
    forall k | 0 <= k < |order1|
      ensures multiset(result + news)[order1[k]] == EdgesInto(edges, walk, order1[k], SetOf(order1[..k]))
    {
      if k < |order| {
        assert order1[..k] == order[..k] && order1[k] == order[k];
        assert order[k] in visited;
      } else {
        assert order1[..k] == order;
      }
    }
    assert SetOf(order1) == seen;
  }

  /** A node is listed at most once per followed edge into it, so once where it has one such edge. */
  lemma ListedAtMost(edges: seq<Edge>, walk: Walk, order: seq<string>, found: multiset<string>, y: string)
    requires Listed(edges, walk, order, found) && y in order
    ensures found[y] <= EdgesInto(edges, walk, y, SetOf(order))
  {
    var k :| 0 <= k < |order| && order[k] == y;
    EdgesMonotone(edges, walk, y, SetOf(order[..k]), SetOf(order));
  }

  class Graph {
    var nodes: map<string, string>
    var edges: seq<Edge>

    constructor ()
      ensures nodes == map[] && edges == []
    {
      nodes, edges := map[], [];
    }

    method AddNode(id: string, kind: string)
      modifies this
      ensures nodes == old(nodes)[id := kind] && edges == old(edges)
    {
      nodes := nodes[id := kind];
    }

    method AddEdge(source: string, target: string, kind: Relationship)
      modifies this
      ensures edges == old(edges) + [Edge(source, target, kind)] && nodes == old(nodes)
    {
      edges := edges + [Edge(source, target, kind)];
    }

    /**
     * `dependents`, `dependencies` and `owners`: everything else reachable, sorted, a node once for every
     * followed edge from a node expanded before it; `order` is the order of expansion.
     */
    method Traverse(walk: Walk, id: string) returns (result: seq<string>, ghost order: seq<string>)
      ensures walk.Dependents? ==> forall x :: x in result <==> x != id && Depends(edges, x, id)
      ensures walk.Dependencies? ==> forall x :: x in result <==> x != id && Depends(edges, id, x)
      ensures walk.Owners? ==> forall x :: x in result <==> x != id && OwnedThrough(edges, id, x)
      ensures Lex.Sorted(result)
      ensures Listed(edges, walk, order, multiset(result))
      ensures (forall j, k :: 0 <= j < k < |order| ==> order[j] != order[k])
      ensures forall x :: x in order <==> x == id || x in result
    {
      hide Sweeping, Reachable, Fresh, Lex.Sorted, Lex.Sort, Counting, Listed, Depends, OwnedThrough;
      result, order := [], [];
      var visited: set<string> := {};
      var stack := [id];
      SweepStarts(edges, walk, id);
      CountingStarts(edges, walk);
      while stack != []
        invariant Sweeping(edges, walk, id, visited, stack, result)
        invariant Counting(edges, walk, order, visited, multiset(result))
        invariant visited <= Universe(edges, id)
        decreases Universe(edges, id) - visited, |stack|
      {
        SweepStep(edges, walk, id, visited, stack, result);
        var current := stack[|stack| - 1];
        stack := stack[..|stack| - 1];
        if current in visited {
          continue;
        }
        CountingStep(edges, walk, order, visited, result, current);
        order := order + [current];
        visited := visited + {current};
        SweepBounded(edges, walk, id, visited, stack + Fresh(edges, walk, current, visited), result + Fresh(edges, walk, current, visited));
        stack, result := Expand(walk, current, visited, stack, result);
      }
      SweepDone(edges, walk, id, visited, result);
      SweepOrder(edges, walk, id, visited, result, order);
      Lex.SortSorts(result);
      ghost var found := result;
      result := Lex.Sort(result);
      SameMembers(found, result);
      forall x ensures Reachable(edges, walk, id, x) <==> Concerns(edges, walk, id, x) {
        ReachableConcerns(edges, walk, id, x);
      }
    }

    /** One pass over the edges for `current`. */
    method Expand(walk: Walk, current: string, visited: set<string>, stack: seq<string>, result: seq<string>)
      returns (stack': seq<string>, result': seq<string>)
      ensures stack' == stack + Fresh(edges, walk, current, visited)
      ensures result' == result + Fresh(edges, walk, current, visited)
    {
      hide Fresh;
      stack', result' := stack, result;
      FreshEmpty(walk, current, visited);
      for i := 0 to |edges|
        invariant stack' == stack + Fresh(edges[..i], walk, current, visited)
        invariant result' == result + Fresh(edges[..i], walk, current, visited)
      {
        FreshNext(edges, walk, current, visited, i);
        var e := edges[i];
        if walk.Here(e) == current && walk.Follows(e) && walk.There(e) !in visited {
          stack' := stack' + [walk.There(e)];
          result' := result' + [walk.There(e)];
        }
      }
      assert edges[..|edges|] == edges;
    }
  }

  lemma SweepOrder(edges: seq<Edge>, walk: Walk, id: string, visited: set<string>, result: seq<string>, order: seq<string>)
    requires Sweeping(edges, walk, id, visited, [], result) && Counting(edges, walk, order, visited, multiset(result))
    ensures Listed(edges, walk, order, multiset(result))
    ensures forall j, k :: 0 <= j < k < |order| ==> order[j] != order[k]
    ensures forall x :: x in order <==> x == id || x in result
  {
    hide EdgesInto, Reachable, Steps;
    assert forall x :: x in order <==> x in visited;
  }

  lemma SameMembers(a: seq<string>, b: seq<string>)
    requires multiset(a) == multiset(b)
    ensures forall x :: x in a <==> x in b
  {
    assert forall x :: x in a <==> x in multiset(a);
    assert forall x :: x in b <==> x in multiset(b);
  }

  lemma SweepStarts(edges: seq<Edge>, walk: Walk, id: string)
    ensures Sweeping(edges, walk, id, {}, [id], [])
  {
  }

  lemma SweepBounded(edges: seq<Edge>, walk: Walk, id: string, visited: set<string>, stack: seq<string>, result: seq<string>)
    requires Sweeping(edges, walk, id, visited, stack, result)
    ensures visited <= Universe(edges, id)
  {
  }

  lemma FreshEmpty(walk: Walk, current: string, visited: set<string>)
    ensures Fresh([], walk, current, visited) == []
  {
  }

  lemma FreshNext(edges: seq<Edge>, walk: Walk, current: string, visited: set<string>, i: nat)
    requires i < |edges|
    ensures var e := edges[i];
            Fresh(edges[..i + 1], walk, current, visited) ==
            Fresh(edges[..i], walk, current, visited)
            + if walk.Here(e) == current && walk.Follows(e) && walk.There(e) !in visited then [walk.There(e)] else []
  {
    assert edges[..i + 1][..i] == edges[..i];
  }
}
