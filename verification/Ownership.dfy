/** `nearest_owner_of_kind`: a stack search, exact on existence, nearest only where owners are unique. */
module Ownership {
  import opened Domain
  import opened Environment

  datatype Scan = Found(owner: string) | More(visited: set<string>, frontier: seq<string>)

  predicate HasKind(nodes: map<string, string>, id: string, kind: string) {
    id in nodes && nodes[id] == kind
  }

  predicate OwnedBy(e: Edge, current: string) {
    e.source == current && IsOwnership(e.kind)
  }

  function Targets(edges: seq<Edge>): set<string> {
    set e | e in edges :: e.target
  }

  /** One pass over the edges for `current`: the first new owner of the kind, or the grown worklist. */
  function ScanEdges(nodes: map<string, string>, edges: seq<Edge>, kind: string, current: string,
                     visited: set<string>, frontier: seq<string>): (r: Scan)
    ensures r.More? ==> visited <= r.visited <= visited + Targets(edges)
    ensures r.More? && r.visited == visited ==> r.frontier == frontier
    decreases |edges|
  {
    if edges == [] then More(visited, frontier)
    else
      var e := edges[0];
      assert Targets(edges[1..]) <= Targets(edges);
      if OwnedBy(e, current) && e.target !in visited then
        if HasKind(nodes, e.target, kind) then Found(e.target)
        else ScanEdges(nodes, edges[1..], kind, current, visited + {e.target}, frontier + [e.target])
      else ScanEdges(nodes, edges[1..], kind, current, visited, frontier)
  }

  function Search(nodes: map<string, string>, edges: seq<Edge>, kind: string, visited: set<string>, frontier: seq<string>): Option<string>
    decreases Targets(edges) - visited, |frontier|
  {
    if frontier == [] then None
    else
      var n := |frontier| - 1;
      match ScanEdges(nodes, edges, kind, frontier[n], visited, frontier[..n])
      case Found(owner) => Some(owner)
      case More(visited1, frontier1) =>
        assert visited1 != visited ==> exists x :: x in visited1 && x !in visited && x in Targets(edges);
        Search(nodes, edges, kind, visited1, frontier1)
  }

  method NearestOwnerOfKind(nodes: map<string, string>, edges: seq<Edge>, id: string, kind: string) returns (owner: Option<string>)
    ensures owner == Search(nodes, edges, kind, {}, [id])
  {
    var visited: set<string> := {};
    var frontier := [id];
    while frontier != []
      invariant Search(nodes, edges, kind, visited, frontier) == Search(nodes, edges, kind, {}, [id])
      decreases Targets(edges) - visited, |frontier|
    {
      ghost var visited0, frontier0 := visited, frontier;
      var current := frontier[|frontier| - 1];
      frontier := frontier[..|frontier| - 1];
      ghost var scan := ScanEdges(nodes, edges, kind, current, visited, frontier);
      var i := 0;
      while i < |edges|
        invariant 0 <= i <= |edges|
        invariant ScanEdges(nodes, edges[i..], kind, current, visited, frontier) == scan
      {
        var e := edges[i];
        assert edges[i..][1..] == edges[i + 1..];
        if OwnedBy(e, current) && e.target !in visited {
          if HasKind(nodes, e.target, kind) {
            return Some(e.target);
          }
          visited := visited + {e.target};
          frontier := frontier + [e.target];
        }
        i := i + 1;
      }
      assert scan == More(visited, frontier);
      assert visited != visited0 ==> exists x :: x in visited && x !in visited0 && x in Targets(edges);
    }
    return None;
  }

  // ---------------------------------------------------------------- existence

  /** What one scan of a suffix of the edges establishes. */
  lemma {:induction false} ScanMeans(nodes: map<string, string>, all: seq<Edge>, edges: seq<Edge>, kind: string, current: string,
                                     visited: set<string>, frontier: seq<string>)
    requires forall e :: e in edges ==> e in all
    ensures var r := ScanEdges(nodes, edges, kind, current, visited, frontier);
            && (r.Found? ==> HasKind(nodes, r.owner, kind) && Steps(all, Owners, current, r.owner))
            && (r.More? ==>
                  && (forall e :: e in edges && OwnedBy(e, current) ==> e.target in r.visited)
                  && (forall x :: x in r.visited ==> x in visited || (Steps(all, Owners, current, x) && !HasKind(nodes, x, kind)))
                  && (forall x :: x in r.frontier <==> x in frontier || (x in r.visited && x !in visited)))
    decreases |edges|
  {
    if edges != [] {
      var e := edges[0];
      assert edges == [e] + edges[1..];
      var isNew := OwnedBy(e, current) && e.target !in visited;
      if OwnedBy(e, current) {
        assert Owners.Follows(e) && Owners.Here(e) == current && Owners.There(e) == e.target;
        assert Steps(all, Owners, current, e.target);
      }
      if isNew && !HasKind(nodes, e.target, kind) {
        ScanMeans(nodes, all, edges[1..], kind, current, visited + {e.target}, frontier + [e.target]);
      } else if !isNew {
        ScanMeans(nodes, all, edges[1..], kind, current, visited, frontier);
      }
    }
  }

  /** Everything seen is a reachable owner of another kind; whatever is off the frontier is fully expanded. */
  ghost predicate Searching(nodes: map<string, string>, edges: seq<Edge>, kind: string, id: string, visited: set<string>, frontier: seq<string>) {
    && (forall x :: x in visited ==> Reachable(edges, Owners, id, x) && !HasKind(nodes, x, kind))
    && (forall x :: x in frontier ==> x == id || x in visited)
    && (forall x, y :: (x == id || x in visited) && x !in frontier && Steps(edges, Owners, x, y) ==> y in visited)
  }

  lemma SearchStep(nodes: map<string, string>, edges: seq<Edge>, kind: string, id: string, visited: set<string>, frontier: seq<string>)
    requires Searching(nodes, edges, kind, id, visited, frontier) && frontier != []
    ensures var n := |frontier| - 1;
            var r := ScanEdges(nodes, edges, kind, frontier[n], visited, frontier[..n]);
            && (r.Found? ==> HasKind(nodes, r.owner, kind) && Reachable(edges, Owners, id, r.owner))
            && (r.More? ==> Searching(nodes, edges, kind, id, r.visited, r.frontier))
  {
    var n := |frontier| - 1;
    var current := frontier[n];
    assert frontier == frontier[..n] + [current];
    var r := ScanEdges(nodes, edges, kind, current, visited, frontier[..n]);
    ScanMeans(nodes, edges, edges, kind, current, visited, frontier[..n]);
    forall x | Steps(edges, Owners, current, x) ensures Reachable(edges, Owners, id, x) {
      ReachStep(edges, Owners, id, current, x);
    }
    if r.More? {
      forall x, y | (x == id || x in r.visited) && x !in r.frontier && Steps(edges, Owners, x, y) ensures y in r.visited {
        if x == current {
          var e :| e in edges && Owners.Follows(e) && Owners.Here(e) == x && Owners.There(e) == y;
          assert OwnedBy(e, current);
        }
      }
    }
  }

  /** Some exactly when a reachable owner of the kind exists, and then such an owner. */
  lemma {:induction false} SearchDecides(nodes: map<string, string>, edges: seq<Edge>, kind: string, id: string, visited: set<string>, frontier: seq<string>)
    requires Searching(nodes, edges, kind, id, visited, frontier)
    ensures var r := Search(nodes, edges, kind, visited, frontier);
            && (r.Some? ==> HasKind(nodes, r.value, kind) && Reachable(edges, Owners, id, r.value))
            && (r.None? ==> forall x :: Reachable(edges, Owners, id, x) ==> !HasKind(nodes, x, kind))
    decreases Targets(edges) - visited, |frontier|
  {
    if frontier == [] {
      forall x | Reachable(edges, Owners, id, x) ensures !HasKind(nodes, x, kind) {
        var p :| Leads(edges, Owners, p, id, x);
        ClosedContains(edges, Owners, visited + {id}, p);
        var q := p[|p| - 2..];
        assert Steps(edges, Owners, p[|p| - 2], p[|p| - 2 + 1]);
        ClosedContains(edges, Owners, visited + {id}, p[..|p| - 1]);
      }
    } else {
      SearchStep(nodes, edges, kind, id, visited, frontier);
      var n := |frontier| - 1;
      var r := ScanEdges(nodes, edges, kind, frontier[n], visited, frontier[..n]);
      if r.More? {
        assert r.visited != visited ==> exists x :: x in r.visited && x !in visited && x in Targets(edges);
        SearchDecides(nodes, edges, kind, id, r.visited, r.frontier);
      }
    }
  }

  lemma NearestOwnerDecides(nodes: map<string, string>, edges: seq<Edge>, kind: string, id: string)
    ensures var r := Search(nodes, edges, kind, {}, [id]);
            && (r.None? <==> forall x :: OwnedThrough(edges, id, x) ==> !(x in nodes && nodes[x] == kind))
            && (r.Some? ==> r.value in nodes && nodes[r.value] == kind && OwnedThrough(edges, id, r.value))
  {
    hide Search, Reachable, OwnedThrough;
    SearchDecides(nodes, edges, kind, id, {}, [id]);
    forall x ensures Reachable(edges, Owners, id, x) <==> OwnedThrough(edges, id, x) {
      OwnedIff(edges, id, x);
    }
  }

  // ---------------------------------------------------------------- discovery order

  /** The owners one expansion discovers, in edge order. */
  function News(edges: seq<Edge>, current: string, visited: set<string>): (r: seq<string>)
    ensures forall x :: x in r ==> x !in visited && x in Targets(edges) && Steps(edges, Owners, current, x)
    ensures forall j, k :: 0 <= j < k < |r| ==> r[j] != r[k]
    decreases |edges|
  {
    if edges == [] then []
    else
      var e := edges[0];
      var isNew := OwnedBy(e, current) && e.target !in visited;
      var rest := News(edges[1..], current, if isNew then visited + {e.target} else visited);
      assert Targets(edges[1..]) <= Targets(edges);
      assert forall x :: x in rest ==> Steps(edges, Owners, current, x) by {
        forall x | x in rest ensures Steps(edges, Owners, current, x) {
          var f :| f in edges[1..] && Owners.Follows(f) && Owners.Here(f) == current && Owners.There(f) == x;
          assert f in edges;
        }
      }
      if isNew then
        assert Owners.Follows(e) && Owners.Here(e) == current && Owners.There(e) == e.target;
        [e.target] + rest
      else rest
  }

  lemma Shrinks(edges: seq<Edge>, current: string, visited: set<string>)
    ensures var news := News(edges, current, visited);
            && (news == [] ==> visited + SetOf(news) == visited)
            && (news != [] ==> Targets(edges) - (visited + SetOf(news)) < Targets(edges) - visited)
  {
    var news := News(edges, current, visited);
    if news != [] {
      assert news[0] in Targets(edges) - visited && news[0] in SetOf(news);
    }
  }

  /** Every owner the search would discover if none had the kind, in order. */
  function Discover(edges: seq<Edge>, visited: set<string>, frontier: seq<string>): (r: seq<string>)
    ensures forall x :: x in r ==> x !in visited
    ensures forall j, k :: 0 <= j < k < |r| ==> r[j] != r[k]
    decreases Targets(edges) - visited, |frontier|
  {
    if frontier == [] then []
    else
      var n := |frontier| - 1;
      var news := News(edges, frontier[n], visited);
      Shrinks(edges, frontier[n], visited);
      var rest := Discover(edges, visited + SetOf(news), frontier[..n] + news);
      assert forall x :: x in news ==> x in visited + SetOf(news);
      assert forall k :: 0 <= k < |rest| ==> rest[k] in rest;
      news + rest
  }

  function First(nodes: map<string, string>, kind: string, found: seq<string>): Option<string> {
    if found == [] then None
    else if HasKind(nodes, found[0], kind) then Some(found[0])
    else First(nodes, kind, found[1..])
  }

  lemma {:induction false} FirstOfConcat(nodes: map<string, string>, kind: string, a: seq<string>, b: seq<string>)
    ensures First(nodes, kind, a + b) == if First(nodes, kind, a).Some? then First(nodes, kind, a) else First(nodes, kind, b)
  {
    if a == [] {
      assert a + b == b;
    } else {
      assert (a + b)[1..] == a[1..] + b;
      FirstOfConcat(nodes, kind, a[1..], b);
    }
  }

  lemma {:induction false} FirstMeans(nodes: map<string, string>, kind: string, found: seq<string>, k: nat)
    requires k < |found| && HasKind(nodes, found[k], kind)
    ensures exists j :: 0 <= j <= k && First(nodes, kind, found) == Some(found[j]) && HasKind(nodes, found[j], kind)
  {
    if !HasKind(nodes, found[0], kind) {
      FirstMeans(nodes, kind, found[1..], k - 1);
      var j :| 0 <= j <= k - 1 && First(nodes, kind, found[1..]) == Some(found[1..][j]) && HasKind(nodes, found[1..][j], kind);
      assert found[1..][j] == found[j + 1];
    }
  }

  lemma {:induction false} ScanIsFirst(nodes: map<string, string>, edges: seq<Edge>, kind: string, current: string,
                                       visited: set<string>, frontier: seq<string>)
    ensures var news := News(edges, current, visited);
            ScanEdges(nodes, edges, kind, current, visited, frontier) ==
            if First(nodes, kind, news).Some? then Found(First(nodes, kind, news).value)
            else More(visited + SetOf(news), frontier + news)
    decreases |edges|
  {
    if edges == [] {
      assert visited + SetOf([]) == visited;
    } else {
      var e := edges[0];
      if OwnedBy(e, current) && e.target !in visited {
        var rest := News(edges[1..], current, visited + {e.target});
        ScanIsFirst(nodes, edges[1..], kind, current, visited + {e.target}, frontier + [e.target]);
        assert ([e.target] + rest)[1..] == rest;
        assert visited + {e.target} + SetOf(rest) == visited + SetOf([e.target] + rest);
        assert frontier + [e.target] + rest == frontier + ([e.target] + rest);
      } else {
        ScanIsFirst(nodes, edges[1..], kind, current, visited, frontier);
      }
    }
  }

  /** The search returns the first discovered owner of the kind. */
  lemma {:induction false} SearchIsFirst(nodes: map<string, string>, edges: seq<Edge>, kind: string, visited: set<string>, frontier: seq<string>)
    ensures Search(nodes, edges, kind, visited, frontier) == First(nodes, kind, Discover(edges, visited, frontier))
    decreases Targets(edges) - visited, |frontier|
  {
    if frontier != [] {
      hide News, ScanEdges, First, Targets, SetOf;
      var n := |frontier| - 1;
      var news := News(edges, frontier[n], visited);
      ScanIsFirst(nodes, edges, kind, frontier[n], visited, frontier[..n]);
      FirstOfConcat(nodes, kind, news, Discover(edges, visited + SetOf(news), frontier[..n] + news));
      if First(nodes, kind, news).None? {
        Shrinks(edges, frontier[n], visited);
        SearchIsFirst(nodes, edges, kind, visited + SetOf(news), frontier[..n] + news);
      }
    }
  }

  lemma DiscoveredIsReachable(edges: seq<Edge>, id: string, x: string)
    ensures x in Discover(edges, {}, [id]) <==> Reachable(edges, Owners, id, x)
  {
    var nodes := map[x := "k"];
    var found := Discover(edges, {}, [id]);
    SearchIsFirst(nodes, edges, "k", {}, [id]);
    SearchDecides(nodes, edges, "k", id, {}, [id]);
    if k :| 0 <= k < |found| && found[k] == x {
      FirstMeans(nodes, "k", found, k);
    }
    FirstIsMember(nodes, "k", found);
  }

  lemma {:induction false} FirstIsMember(nodes: map<string, string>, kind: string, found: seq<string>)
    ensures var r := First(nodes, kind, found); r.Some? ==> r.value in found && HasKind(nodes, r.value, kind)
  {
    if found != [] {
      FirstIsMember(nodes, kind, found[1..]);
    }
  }

  // ---------------------------------------------------------------- nearness

  /** `b` has a shorter ownership path from `id` than any path to `a`. */
  ghost predicate Farther(edges: seq<Edge>, id: string, a: string, b: string) {
    exists p :: Leads(edges, Owners, p, id, b) && forall q :: Leads(edges, Owners, q, id, a) ==> |p| < |q|
  }

  /** Whatever the kinds, no owner of the kind is nearer than the one returned. */
  ghost predicate AlwaysNearest(edges: seq<Edge>, id: string) {
    forall nodes: map<string, string>, kind, y ::
      Search(nodes, edges, kind, {}, [id]).Some? && HasKind(nodes, y, kind) ==>
        !Farther(edges, id, Search(nodes, edges, kind, {}, [id]).value, y)
  }

  /** No owner is listed before a nearer one. */
  ghost predicate Outward(edges: seq<Edge>, id: string, found: seq<string>) {
    forall j, k :: 0 <= j < k < |found| ==> !Farther(edges, id, found[j], found[k])
  }

  /** The stack happens to discover owners in order of distance. */
  ghost predicate DiscoversOutward(edges: seq<Edge>, id: string) {
    Outward(edges, id, Discover(edges, {}, [id]))
  }

  lemma OutwardIsNearest(edges: seq<Edge>, id: string, nodes: map<string, string>, kind: string, y: string)
    requires DiscoversOutward(edges, id)
    requires Search(nodes, edges, kind, {}, [id]).Some? && HasKind(nodes, y, kind)
    ensures !Farther(edges, id, Search(nodes, edges, kind, {}, [id]).value, y)
  {
    hide Discover, Search, First, Leads;
    var found := Discover(edges, {}, [id]);
    SearchIsFirst(nodes, edges, kind, {}, [id]);
    var x := Search(nodes, edges, kind, {}, [id]).value;
    if Reachable(edges, Owners, id, y) {
      hide Farther, Reachable;
      DiscoveredIsReachable(edges, id, y);
      var k :| 0 <= k < |found| && found[k] == y;
      FirstMeans(nodes, kind, found, k);
      var j :| 0 <= j <= k && x == found[j];
      NotFartherThanItself(edges, id, y);
    }
  }

  lemma NotFartherThanItself(edges: seq<Edge>, id: string, y: string)
    ensures !Farther(edges, id, y, y)
  {
  }

  lemma InwardIsNotNearest(edges: seq<Edge>, id: string, j: nat, k: nat)
    requires j < k < |Discover(edges, {}, [id])|
    requires Farther(edges, id, Discover(edges, {}, [id])[j], Discover(edges, {}, [id])[k])
    ensures !AlwaysNearest(edges, id)
  {
    hide Discover, Search, First;
    var found := Discover(edges, {}, [id]);
    var nodes := map[found[j] := "k", found[k] := "k"];
    SearchIsFirst(nodes, edges, "k", {}, [id]);
    FirstMeans(nodes, "k", found, j);
    var m :| 0 <= m <= j && First(nodes, "k", found) == Some(found[m]) && HasKind(nodes, found[m], "k");
    assert found[m] == found[j];
    assert HasKind(nodes, found[k], "k");
  }

  /**
   * The comment promises breadth-first search and the code pops a stack. For one edge list and
   * start, the result is the nearest owner whatever the kinds are exactly when the stack's own
   * discovery order runs outward.
   */
  lemma NearestIff(edges: seq<Edge>, id: string)
    ensures AlwaysNearest(edges, id) <==> DiscoversOutward(edges, id)
  {
    if DiscoversOutward(edges, id) {
      forall nodes: map<string, string>, kind, y |
        Search(nodes, edges, kind, {}, [id]).Some? && HasKind(nodes, y, kind)
        ensures !Farther(edges, id, Search(nodes, edges, kind, {}, [id]).value, y)
      {
        OutwardIsNearest(edges, id, nodes, kind, y);
      }
    } else {
      var found := Discover(edges, {}, [id]);
      var j, k :| 0 <= j < k < |found| && Farther(edges, id, found[j], found[k]);
      InwardIsNotNearest(edges, id, j, k);
    }
  }

  // ---------------------------------------------------------------- one way up

  predicate UniqueOwners(edges: seq<Edge>) {
    forall e, f :: e in edges && f in edges && IsOwnership(e.kind) && IsOwnership(f.kind) && e.source == f.source ==> e.target == f.target
  }

  ghost predicate IsOwned(edges: seq<Edge>, x: string) {
    exists y :: Steps(edges, Owners, x, y)
  }

  /** However many owners a resource has, at most one of them is itself owned. */
  ghost predicate OneWayUp(edges: seq<Edge>) {
    forall v, a, b ::
      (Steps(edges, Owners, v, a) && Steps(edges, Owners, v, b) && IsOwned(edges, a) && IsOwned(edges, b)) ==> a == b
  }

  lemma UniqueOwnersGoOneWay(edges: seq<Edge>)
    requires UniqueOwners(edges)
    ensures OneWayUp(edges)
  {
    hide IsOwned;
    forall v, a, b | Steps(edges, Owners, v, a) && Steps(edges, Owners, v, b) ensures a == b {
    }
  }

  lemma DiscoverOne(edges: seq<Edge>, visited: set<string>, current: string)
    ensures var news := News(edges, current, visited);
            Discover(edges, visited, [current]) == news + Discover(edges, visited + SetOf(news), news)
  {
    assert [current][..0] + News(edges, current, visited) == News(edges, current, visited);
  }

  lemma NewsMeansOwned(edges: seq<Edge>, current: string, visited: set<string>)
    requires News(edges, current, visited) != []
    ensures IsOwned(edges, current)
  {
    hide News;
    assert News(edges, current, visited)[0] in News(edges, current, visited);
  }

  lemma UnownedAddNothing(edges: seq<Edge>, current: string, visited: set<string>)
    requires !IsOwned(edges, current)
    ensures News(edges, current, visited) == []
  {
    hide News;
    if News(edges, current, visited) != [] {
      NewsMeansOwned(edges, current, visited);
    }
  }

  ghost predicate NoneOwned(edges: seq<Edge>, s: seq<string>) {
    forall k :: 0 <= k < |s| ==> !IsOwned(edges, s[k])
  }

  /** Unowned resources at the bottom of the stack change nothing. */
  lemma {:induction false} UnownedBelow(edges: seq<Edge>, visited: set<string>, below: seq<string>, frontier: seq<string>)
    requires NoneOwned(edges, below)
    ensures Discover(edges, visited, below + frontier) == Discover(edges, visited, frontier)
    decreases Targets(edges) - visited, |below + frontier|
  {
    hide News, IsOwned, Targets, Discover;
    var all := below + frontier;
    if frontier != [] {
      var n := |frontier| - 1;
      var news := News(edges, frontier[n], visited);
      Shrinks(edges, frontier[n], visited);
      DiscoverStep(edges, visited, all);
      DiscoverStep(edges, visited, frontier);
      assert all[|all| - 1] == frontier[n] && all[..|all| - 1] + news == below + (frontier[..n] + news);
      UnownedBelow(edges, visited + SetOf(news), below, frontier[..n] + news);
    } else if below != [] {
      assert all == below;
      UnownedAbove(edges, visited, [], below);
      assert [] + below == below;
    } else {
      assert all == frontier;
    }
  }

  lemma DiscoverStep(edges: seq<Edge>, visited: set<string>, frontier: seq<string>)
    requires frontier != []
    ensures var n := |frontier| - 1;
            var news := News(edges, frontier[n], visited);
            Discover(edges, visited, frontier) == news + Discover(edges, visited + SetOf(news), frontier[..n] + news)
  {
    hide News;
  }

  /** Nor do unowned resources on top of it. */
  lemma {:induction false} UnownedAbove(edges: seq<Edge>, visited: set<string>, frontier: seq<string>, above: seq<string>)
    requires NoneOwned(edges, above)
    ensures Discover(edges, visited, frontier + above) == Discover(edges, visited, frontier)
    decreases |above|
  {
    hide News, IsOwned, Targets, Discover;
    var all := frontier + above;
    if above == [] {
      assert all == frontier;
    } else {
      var n := |above| - 1;
      UnownedAddNothing(edges, above[n], visited);
      DiscoverStep(edges, visited, all);
      assert all[|all| - 1] == above[n] && all[..|all| - 1] == frontier + above[..n];
      assert visited + SetOf([]) == visited;
      assert all[..|all| - 1] + [] == frontier + above[..n];
      UnownedAbove(edges, visited, frontier, above[..n]);
    }
  }

  /** Of one expansion's discoveries, only the owned one leads on. */
  lemma OneLeadsOn(edges: seq<Edge>, visited: set<string>, current: string, news: seq<string>, k: nat)
    requires OneWayUp(edges) && k < |news| && IsOwned(edges, news[k])
    requires forall x :: x in news ==> Steps(edges, Owners, current, x)
    requires forall i, j :: 0 <= i < j < |news| ==> news[i] != news[j]
    ensures Discover(edges, visited, news) == Discover(edges, visited, [news[k]])
  {
    hide Discover, IsOwned, Steps;
    var below, above := news[..k], news[k + 1..];
    forall i | 0 <= i < |news| && i != k ensures !IsOwned(edges, news[i]) {
      assert news[i] in news && news[k] in news;
    }
    UnownedAbove(edges, visited, news[..k + 1], above);
    assert news[..k + 1] + above == news;
    UnownedBelow(edges, visited, below, [news[k]]);
    assert below + [news[k]] == news[..k + 1];
  }

  lemma NoneLeadOn(edges: seq<Edge>, visited: set<string>, news: seq<string>)
    requires NoneOwned(edges, news)
    ensures Discover(edges, visited, news) == []
  {
    UnownedBelow(edges, visited, news, []);
    assert news + [] == news;
  }

  lemma TrailExtends(edges: seq<Edge>, trail: seq<string>, x: string)
    requires trail != [] && Trail(edges, Owners, trail) && Steps(edges, Owners, trail[|trail| - 1], x)
    ensures Trail(edges, Owners, trail + [x])
  {
    forall k | 0 <= k < |trail| ensures Steps(edges, Owners, (trail + [x])[k], (trail + [x])[k + 1]) {
      if k < |trail| - 1 {
        assert Steps(edges, Owners, trail[k], trail[k + 1]);
      }
    }
  }

  /** The one way up from `id`, as far as it has been expanded: every owner along it has been seen. */
  ghost predicate Climbed(edges: seq<Edge>, id: string, trail: seq<string>, visited: set<string>) {
    && trail != [] && trail[0] == id && Trail(edges, Owners, trail)
    && forall k, x :: 0 <= k < |trail| - 1 && Steps(edges, Owners, trail[k], x) ==> x in visited
  }

  /** Every path goes that one way until its last step. */
  lemma {:induction false} OnlyWay(edges: seq<Edge>, trail: seq<string>, p: seq<string>, m: nat)
    requires OneWayUp(edges) && Trail(edges, Owners, trail) && Trail(edges, Owners, p)
    requires m < |p| - 1 && m < |trail| - 1 && trail[0] == p[0]
    ensures p[m] == trail[m]
  {
    if m > 0 {
      OnlyWay(edges, trail, p, m - 1);
      assert Steps(edges, Owners, p[m - 1], p[m - 1 + 1]) && Steps(edges, Owners, trail[m - 1], trail[m - 1 + 1]);
      assert Steps(edges, Owners, p[m], p[m + 1]) && Steps(edges, Owners, trail[m], trail[m + 1]);
    }
  }

  /** Whatever a path no longer than the expanded way leads to has been seen. */
  lemma NearIsSeen(edges: seq<Edge>, id: string, trail: seq<string>, visited: set<string>, x: string, p: seq<string>)
    requires OneWayUp(edges) && Climbed(edges, id, trail, visited) && Leads(edges, Owners, p, id, x)
    requires |p| <= |trail|
    ensures x in visited
  {
    var m := |p| - 2;
    OnlyWay(edges, trail, p, m);
    assert Steps(edges, Owners, p[m], p[m + 1]);
  }

  lemma ClimbOne(edges: seq<Edge>, id: string, trail: seq<string>, visited: set<string>, next: string)
    requires Climbed(edges, id, trail, visited) && Steps(edges, Owners, trail[|trail| - 1], next)
    ensures var news := News(edges, trail[|trail| - 1], visited);
            Climbed(edges, id, trail + [next], visited + SetOf(news))
  {
    hide News;
    var current := trail[|trail| - 1];
    var news := News(edges, current, visited);
    TrailExtends(edges, trail, next);
    forall x | Steps(edges, Owners, current, x) ensures x in visited + SetOf(news) {
      NewsIsAll(edges, current, visited, x);
    }
    var t := trail + [next];
    forall k, x | 0 <= k < |t| - 1 && Steps(edges, Owners, t[k], x) ensures x in visited + SetOf(news) {
      if k < |trail| - 1 {
        assert t[k] == trail[k];
      }
    }
  }

  lemma {:induction false} NewsIsAll(edges: seq<Edge>, current: string, visited: set<string>, x: string)
    requires Steps(edges, Owners, current, x)
    ensures x in visited || x in News(edges, current, visited)
    decreases |edges|
  {
    var e := edges[0];
    var isNew := OwnedBy(e, current) && e.target !in visited;
    if !(OwnedBy(e, current) && e.target == x) {
      var f :| f in edges && Owners.Follows(f) && Owners.Here(f) == current && Owners.There(f) == x;
      assert f in edges[1..];
      NewsIsAll(edges[1..], current, if isNew then visited + {e.target} else visited, x);
    }
  }

  /** Along one way up, whatever is discovered is discovered in order of distance. */
  lemma {:induction false} ClimbsOutward(edges: seq<Edge>, id: string, trail: seq<string>, visited: set<string>)
    requires OneWayUp(edges) && Climbed(edges, id, trail, visited)
    ensures Outward(edges, id, Discover(edges, visited, [trail[|trail| - 1]]))
    decreases Targets(edges) - visited
  {
    var current := trail[|trail| - 1];
    hide News, Targets, SetOf, Climbed, OneWayUp, Farther, IsOwned;
    var news := News(edges, current, visited);
    var seen := visited + SetOf(news);
    Shrinks(edges, current, visited);
    DiscoverOne(edges, visited, current);
    var rest := Discover(edges, seen, news);
    if k :| 0 <= k < |news| && IsOwned(edges, news[k]) {
      assert news[k] in news;
      OneLeadsOn(edges, seen, current, news, k);
      ClimbOne(edges, id, trail, visited, news[k]);
      ClimbsOutward(edges, id, trail + [news[k]], seen);
    } else {
      NoneLeadOn(edges, seen, news);
    }
    hide Discover;
    NewsFirst(edges, id, trail, visited, news, rest);
  }

  lemma NewsFirst(edges: seq<Edge>, id: string, trail: seq<string>, visited: set<string>, news: seq<string>, rest: seq<string>)
    requires OneWayUp(edges) && Climbed(edges, id, trail, visited) && Outward(edges, id, rest)
    requires forall x :: x in news ==> Steps(edges, Owners, trail[|trail| - 1], x)
    requires forall x :: x in news + rest ==> x !in visited
    ensures Outward(edges, id, news + rest)
  {
    hide OneWayUp, Steps;
    var all := news + rest;
    forall j, k | 0 <= j < k < |all| ensures !Farther(edges, id, all[j], all[k]) {
      if j < |news| {
        assert all[j] in news && all[k] in all;
        NotBefore(edges, id, trail, visited, all[j], all[k]);
      } else {
        assert !Farther(edges, id, rest[j - |news|], rest[k - |news|]);
      }
    }
  }

  lemma NotBefore(edges: seq<Edge>, id: string, trail: seq<string>, visited: set<string>, a: string, b: string)
    requires OneWayUp(edges) && Climbed(edges, id, trail, visited)
    requires Steps(edges, Owners, trail[|trail| - 1], a) && b !in visited
    ensures !Farther(edges, id, a, b)
  {
    TrailExtends(edges, trail, a);
    assert Leads(edges, Owners, trail + [a], id, a);
    forall p | Leads(edges, Owners, p, id, b) ensures |p| >= |trail + [a]| {
      if |p| <= |trail| {
        NearIsSeen(edges, id, trail, visited, b, p);
      }
    }
  }

  /** Where at most one owner of each resource is itself owned, the search does return the nearest. */
  lemma OneWayUpIsNearest(edges: seq<Edge>, id: string)
    requires OneWayUp(edges)
    ensures AlwaysNearest(edges, id)
  {
    hide Discover, AlwaysNearest, OneWayUp;
    ClimbsOutward(edges, id, [id], {});
    NearestIff(edges, id);
  }

  /** In particular where every resource has at most one owner. */
  lemma UniqueOwnersAreNearest(edges: seq<Edge>, id: string)
    requires UniqueOwners(edges)
    ensures AlwaysNearest(edges, id)
  {
    hide AlwaysNearest;
    UniqueOwnersGoOneWay(edges);
    OneWayUpIsNearest(edges, id);
  }

  /** A resource with two owners, `a` one hop and `b` two hops from an answer, in that edge order. */
  function Fork(s: string, a: string, b: string, c: string, d: string, e: string): seq<Edge> {
    [Edge(s, a, BelongsTo)] + ([Edge(s, b, BelongsTo)] + ([Edge(a, e, BelongsTo)] + ([Edge(b, c, BelongsTo)] + [Edge(c, d, BelongsTo)])))
  }

  predicate Distinct(s: string, a: string, b: string, c: string, d: string, e: string) {
    && s != a && s != b && s != c && s != d && s != e
    && a != b && a != c && a != d && a != e
    && b != c && b != d && b != e
    && c != d && c != e && d != e
  }

  /** The stronger reading fails: with two owners the stack goes deep first and returns the farther answer. */
  lemma StackIsNotBreadthFirst(s: string, a: string, b: string, c: string, d: string, e: string, kind: string)
    requires Distinct(s, a, b, c, d, e)
    ensures var nodes, edges := map[d := kind, e := kind], Fork(s, a, b, c, d, e);
            Search(nodes, edges, kind, {}, [s]) == Some(d) && Farther(edges, s, d, e)
    ensures !AlwaysNearest(Fork(s, a, b, c, d, e), s)
  {
    hide Search, Farther, Fork;
    var nodes := map[d := kind, e := kind];
    ForkSearch(nodes, s, a, b, c, d, e, kind);
    ForkFarther(s, a, b, c, d, e);
    assert HasKind(nodes, e, kind);
  }

  lemma ForkFarther(s: string, a: string, b: string, c: string, d: string, e: string)
    requires Distinct(s, a, b, c, d, e)
    ensures Farther(Fork(s, a, b, c, d, e), s, d, e)
  {
    hide Steps, Fork;
    var edges := Fork(s, a, b, c, d, e);
    ForkSteps(s, a, b, c, d, e, s, a);
    ForkSteps(s, a, b, c, d, e, a, e);
    assert Leads(edges, Owners, [s, a, e], s, e);
    forall q | Leads(edges, Owners, q, s, d) ensures |q| > 3 {
      var n := |q|;
      ForkSteps(s, a, b, c, d, e, q[n - 2], q[n - 2 + 1]);
      ForkSteps(s, a, b, c, d, e, q[n - 3], q[n - 3 + 1]);
    }
  }

  lemma ForkSteps(s: string, a: string, b: string, c: string, d: string, e: string, x: string, y: string)
    requires Distinct(s, a, b, c, d, e)
    ensures (x == s && y == a) || (x == a && y == e) ==> Steps(Fork(s, a, b, c, d, e), Owners, x, y)
    ensures Steps(Fork(s, a, b, c, d, e), Owners, x, y) ==> (y == d ==> x == c) && (y == c ==> x == b)
  {
    var edges := Fork(s, a, b, c, d, e);
    assert edges[0] in edges && edges[2] in edges;
    assert Owners.Follows(edges[0]) && Owners.Follows(edges[2]);
  }

  lemma ForkSearch(nodes: map<string, string>, s: string, a: string, b: string, c: string, d: string, e: string, kind: string)
    requires Distinct(s, a, b, c, d, e) && nodes == map[d := kind, e := kind]
    ensures Search(nodes, Fork(s, a, b, c, d, e), kind, {}, [s]) == Some(d)
  {
    var edges := Fork(s, a, b, c, d, e);
    ForkFirst(nodes, s, a, b, c, d, e, kind);
    ForkSecond(nodes, s, a, b, c, d, e, kind);
    ForkThird(nodes, s, a, b, c, d, e, kind);
    hide ScanEdges, Fork;
    assert [s][..0] == [] && [a, b][..1] == [a] && [a, c][..1] == [a];
    assert Search(nodes, edges, kind, {a, b, c}, [a, c]) == Some(d);
    assert Search(nodes, edges, kind, {a, b}, [a, b]) == Some(d);
  }

  lemma ForkFirst(nodes: map<string, string>, s: string, a: string, b: string, c: string, d: string, e: string, kind: string)
    requires Distinct(s, a, b, c, d, e) && nodes == map[d := kind, e := kind]
    ensures ScanEdges(nodes, Fork(s, a, b, c, d, e), kind, s, {}, []) == More({a, b}, [a, b])
  {
    hide ScanEdges;
    var bc, cd := Edge(b, c, BelongsTo), Edge(c, d, BelongsTo);
    var e3 := [bc] + [cd];
    var e2 := [Edge(a, e, BelongsTo)] + e3;
    var e1 := [Edge(s, b, BelongsTo)] + e2;
    assert {} + {a} == {a} && {a} + {b} == {a, b} && [] + [a] == [a] && [a] + [b] == [a, b];
    ScanCons(nodes, Edge(s, a, BelongsTo), e1, kind, s, {}, []);
    ScanCons(nodes, Edge(s, b, BelongsTo), e2, kind, s, {a}, [a]);
    ScanRest(nodes, e2, kind, s, {a, b}, [a, b]);
  }

  lemma ForkSecond(nodes: map<string, string>, s: string, a: string, b: string, c: string, d: string, e: string, kind: string)
    requires Distinct(s, a, b, c, d, e) && nodes == map[d := kind, e := kind]
    ensures ScanEdges(nodes, Fork(s, a, b, c, d, e), kind, b, {a, b}, [a]) == More({a, b, c}, [a, c])
  {
    hide ScanEdges;
    var bc, cd := Edge(b, c, BelongsTo), Edge(c, d, BelongsTo);
    var e3 := [bc] + [cd];
    var e2 := [Edge(a, e, BelongsTo)] + e3;
    var e1 := [Edge(s, b, BelongsTo)] + e2;
    assert {a, b} + {c} == {a, b, c} && [a] + [c] == [a, c];
    ScanCons(nodes, Edge(s, a, BelongsTo), e1, kind, b, {a, b}, [a]);
    ScanCons(nodes, Edge(s, b, BelongsTo), e2, kind, b, {a, b}, [a]);
    ScanCons(nodes, Edge(a, e, BelongsTo), e3, kind, b, {a, b}, [a]);
    ScanCons(nodes, bc, [cd], kind, b, {a, b}, [a]);
    ScanRest(nodes, [cd], kind, b, {a, b, c}, [a, c]);
  }

  lemma ForkThird(nodes: map<string, string>, s: string, a: string, b: string, c: string, d: string, e: string, kind: string)
    requires Distinct(s, a, b, c, d, e) && nodes == map[d := kind, e := kind]
    ensures ScanEdges(nodes, Fork(s, a, b, c, d, e), kind, c, {a, b, c}, [a]) == Found(d)
  {
    hide ScanEdges;
    var bc, cd := Edge(b, c, BelongsTo), Edge(c, d, BelongsTo);
    var e3 := [bc] + [cd];
    var e2 := [Edge(a, e, BelongsTo)] + e3;
    var e1 := [Edge(s, b, BelongsTo)] + e2;
    assert [cd] + [] == [cd];
    ScanCons(nodes, Edge(s, a, BelongsTo), e1, kind, c, {a, b, c}, [a]);
    ScanCons(nodes, Edge(s, b, BelongsTo), e2, kind, c, {a, b, c}, [a]);
    ScanCons(nodes, Edge(a, e, BelongsTo), e3, kind, c, {a, b, c}, [a]);
    ScanCons(nodes, bc, [cd], kind, c, {a, b, c}, [a]);
    ScanCons(nodes, cd, [], kind, c, {a, b, c}, [a]);
  }

  lemma ScanCons(nodes: map<string, string>, x: Edge, rest: seq<Edge>, kind: string, current: string, visited: set<string>, frontier: seq<string>)
    ensures ScanEdges(nodes, [x] + rest, kind, current, visited, frontier) ==
            if OwnedBy(x, current) && x.target !in visited then
              if HasKind(nodes, x.target, kind) then Found(x.target)
              else ScanEdges(nodes, rest, kind, current, visited + {x.target}, frontier + [x.target])
            else ScanEdges(nodes, rest, kind, current, visited, frontier)
  {
    assert ([x] + rest)[1..] == rest;
  }

  lemma ScanRest(nodes: map<string, string>, edges: seq<Edge>, kind: string, current: string, visited: set<string>, frontier: seq<string>)
    requires forall e :: e in edges ==> e.source != current
    ensures ScanEdges(nodes, edges, kind, current, visited, frontier) == More(visited, frontier)
    decreases |edges|
  {
    if edges != [] {
      ScanRest(nodes, edges[1..], kind, current, visited, frontier);
    }
  }
}
