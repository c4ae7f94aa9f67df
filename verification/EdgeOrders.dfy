/** The nearest-owner search over every order of the same edges: exactly which graphs it always answers nearest on. */
module EdgeOrders {
  import opened Environment
  import opened Ownership

  ghost predicate SameEdges(a: seq<Edge>, b: seq<Edge>) {
    forall e :: e in a <==> e in b
  }

  /** However the edges are listed and whatever the kinds, the answer is nearest. */
  ghost predicate NearestInEveryOrder(edges: seq<Edge>, id: string) {
    forall order :: SameEdges(edges, order) ==> AlwaysNearest(order, id)
  }

  /** `y` owns some resource on the path. */
  ghost predicate Seen(edges: seq<Edge>, p: seq<string>, y: string) {
    exists j :: 0 <= j < |p| && Steps(edges, Owners, p[j], y)
  }

  /** A way up from `id` without shortcuts: no resource on it is owned one step earlier than it is passed. */
  ghost predicate Clear(edges: seq<Edge>, id: string, p: seq<string>) {
    && p != [] && p[0] == id
    && forall i :: 0 <= i < |p| - 1 ==> ClearAt(edges, p, i)
  }

  ghost predicate ClearAt(edges: seq<Edge>, p: seq<string>, i: nat)
    requires i < |p| - 1
  {
    Steps(edges, Owners, p[i], p[i + 1]) && !Seen(edges, p[..i], p[i + 1])
  }

  /** Following one way up comes upon `z` while `w` is out of sight. */
  ghost predicate ComesUpon(edges: seq<Edge>, id: string, p: seq<string>, z: string, w: string) {
    && Clear(edges, id, p)
    && Steps(edges, Owners, p[|p| - 1], z)
    && !Seen(edges, p[..|p| - 1], z) && !Seen(edges, p[..|p| - 1], w)
  }

  /** And `w` is nearer. */
  ghost predicate Overtakes(edges: seq<Edge>, id: string, p: seq<string>, z: string, w: string) {
    ComesUpon(edges, id, p, z, w) && Farther(edges, id, z, w)
  }

  lemma SameSteps(a: seq<Edge>, b: seq<Edge>)
    requires SameEdges(a, b)
    ensures forall x, y :: Steps(a, Owners, x, y) <==> Steps(b, Owners, x, y)
  {
    forall x, y ensures Steps(a, Owners, x, y) <==> Steps(b, Owners, x, y) {
      if e :| e in a && Owners.Follows(e) && Owners.Here(e) == x && Owners.There(e) == y {
        assert e in b;
      }
      if e :| e in b && Owners.Follows(e) && Owners.Here(e) == x && Owners.There(e) == y {
        assert e in a;
      }
    }
  }

  lemma SameFarther(a: seq<Edge>, b: seq<Edge>, id: string, x: string, y: string)
    requires SameEdges(a, b)
    ensures Farther(a, id, x, y) <==> Farther(b, id, x, y)
  {
    hide Steps;
    SameSteps(a, b);
    assert forall p, v :: Leads(a, Owners, p, id, v) <==> Leads(b, Owners, p, id, v);
  }

  lemma SameOvertakes(a: seq<Edge>, b: seq<Edge>, id: string, p: seq<string>, z: string, w: string)
    requires SameEdges(a, b) && Overtakes(a, id, p, z, w)
    ensures Overtakes(b, id, p, z, w)
  {
    hide Steps, Farther;
    SameSteps(a, b);
    SameFarther(a, b, id, z, w);
    forall i | 0 <= i < |p| - 1 ensures ClearAt(b, p, i) {
      assert ClearAt(a, p, i);
    }
  }

  // ---------------------------------------------------------------- a search out of order overtakes

  /** `p` is a clear way up to `x`, and everything that owns a resource before it has been discovered. */
  ghost predicate PathTo(edges: seq<Edge>, id: string, visited: set<string>, x: string, p: seq<string>) {
    && Clear(edges, id, p) && p[|p| - 1] == x
    && forall y :: Seen(edges, p[..|p| - 1], y) ==> y in visited
  }

  ghost predicate Pathed(edges: seq<Edge>, id: string, visited: set<string>, frontier: seq<string>) {
    forall k :: 0 <= k < |frontier| ==> HasPath(edges, id, visited, frontier[k])
  }

  ghost predicate HasPath(edges: seq<Edge>, id: string, visited: set<string>, x: string) {
    exists p :: PathTo(edges, id, visited, x, p)
  }

  lemma SeenSnoc(edges: seq<Edge>, p: seq<string>, x: string, y: string)
    ensures Seen(edges, p + [x], y) <==> Seen(edges, p, y) || Steps(edges, Owners, x, y)
  {
    hide Steps;
    var q := p + [x];
    assert q[|p|] == x && forall j :: 0 <= j < |p| ==> q[j] == p[j];
  }

  /** A discovery one step beyond a clear way up extends it. */
  lemma PathExtends(edges: seq<Edge>, id: string, visited: set<string>, p: seq<string>, x: string)
    requires p != [] && PathTo(edges, id, visited, p[|p| - 1], p)
    requires Steps(edges, Owners, p[|p| - 1], x) && x !in visited
    ensures PathTo(edges, id, visited + SetOf(News(edges, p[|p| - 1], visited)), x, p + [x])
  {
    hide Steps, News;
    var q, m := p + [x], |p| - 1;
    var all := visited + SetOf(News(edges, p[m], visited));
    forall i | 0 <= i < |q| - 1 ensures ClearAt(edges, q, i) {
      assert q[..i] == p[..i];
      if i < m {
        assert ClearAt(edges, p, i);
      }
    }
    assert q[..|q| - 1] == p && p == p[..m] + [p[m]];
    forall y | Seen(edges, p, y) ensures y in all {
      SeenSnoc(edges, p[..m], p[m], y);
      if Steps(edges, Owners, p[m], y) {
        NewsIsAll(edges, p[m], visited, y);
      }
    }
  }

  /** The way up along which the search came upon its `j`-th discovery, with a later one still out of sight. */
  lemma {:induction false} DiscoveryPath(edges: seq<Edge>, id: string, visited: set<string>, frontier: seq<string>, j: nat, k: nat)
    returns (p: seq<string>)
    requires Pathed(edges, id, visited, frontier) && j < k < |Discover(edges, visited, frontier)|
    ensures var found := Discover(edges, visited, frontier); ComesUpon(edges, id, p, found[j], found[k])
    decreases Targets(edges) - visited, |frontier|
  {
    hide ComesUpon, News, Targets, SetOf, Discover, Pathed, PathTo;
    var found, n := Discover(edges, visited, frontier), |frontier| - 1;
    NothingDiscovered(edges, visited);
    assert found[j] in found && found[k] in found;
    var c := frontier[n];
    var news := News(edges, c, visited);
    Shrinks(edges, c, visited);
    DiscoverStep(edges, visited, frontier);
    p := FrontierPath(edges, id, visited, frontier);
    if j < |news| {
      assert found[j] == news[j] && news[j] in news;
      NewsComeUpon(edges, id, visited, c, p, found[j], found[k]);
    } else {
      var seen, rest := visited + SetOf(news), frontier[..n] + news;
      PathedStep(edges, id, visited, frontier, p);
      var later, j1, k1 := Discover(edges, seen, rest), j - |news|, k - |news|;
      assert found == news + later;
      AfterFirst(news, later, j);
      AfterFirst(news, later, k);
      p := DiscoveryPath(edges, id, seen, rest, j1, k1);
    }
  }

  lemma AfterFirst(a: seq<string>, b: seq<string>, k: nat)
    requires |a| <= k < |a + b|
    ensures k - |a| < |b| && (a + b)[k] == b[k - |a|]
  {
  }

  lemma NothingDiscovered(edges: seq<Edge>, visited: set<string>)
    ensures Discover(edges, visited, []) == []
  {
  }

  lemma FrontierPath(edges: seq<Edge>, id: string, visited: set<string>, frontier: seq<string>) returns (p: seq<string>)
    requires frontier != [] && Pathed(edges, id, visited, frontier)
    ensures PathTo(edges, id, visited, frontier[|frontier| - 1], p)
  {
    hide PathTo;
    var x := frontier[|frontier| - 1];
    assert HasPath(edges, id, visited, x);
    p :| PathTo(edges, id, visited, x, p);
  }

  lemma NewsComeUpon(edges: seq<Edge>, id: string, visited: set<string>, c: string, p: seq<string>, z: string, w: string)
    requires PathTo(edges, id, visited, c, p) && z in News(edges, c, visited) && w !in visited
    ensures ComesUpon(edges, id, p, z, w)
  {
    hide News;
  }

  lemma PathedStep(edges: seq<Edge>, id: string, visited: set<string>, frontier: seq<string>, p: seq<string>)
    requires frontier != [] && Pathed(edges, id, visited, frontier)
    requires PathTo(edges, id, visited, frontier[|frontier| - 1], p)
    ensures var n := |frontier| - 1;
            var news := News(edges, frontier[n], visited);
            Pathed(edges, id, visited + SetOf(news), frontier[..n] + news)
  {
    hide Steps, News, Clear, Seen;
    var n := |frontier| - 1;
    var news := News(edges, frontier[n], visited);
    var seen, rest := visited + SetOf(news), frontier[..n] + news;
    forall k | 0 <= k < |rest| ensures HasPath(edges, id, seen, rest[k]) {
      if k < n {
        assert HasPath(edges, id, visited, frontier[k]);
        var q :| PathTo(edges, id, visited, frontier[k], q);
        assert PathTo(edges, id, seen, rest[k], q);
      } else {
        assert rest[k] in news;
        ClearIsSome(edges, id, p);
        PathExtends(edges, id, visited, p, rest[k]);
      }
    }
  }

  lemma ClearIsSome(edges: seq<Edge>, id: string, p: seq<string>)
    requires Clear(edges, id, p)
    ensures p != []
  {
  }

  lemma DisorderOvertakes(edges: seq<Edge>, id: string)
    requires !AlwaysNearest(edges, id)
    ensures exists p, z, w :: Overtakes(edges, id, p, z, w)
  {
    hide AlwaysNearest, Discover, Steps, Farther;
    NearestIff(edges, id);
    var found := Discover(edges, {}, [id]);
    var j, k :| 0 <= j < k < |found| && Farther(edges, id, found[j], found[k]);
    assert PathTo(edges, id, {}, id, [id]);
    var p := DiscoveryPath(edges, id, {}, [id], j, k);
    assert Overtakes(edges, id, p, found[j], found[k]);
  }

  // ---------------------------------------------------------------- an overtaking way up puts a search out of order

  predicate IsHop(e: Edge, a: string, b: string) {
    OwnedBy(e, a) && e.target == b
  }

  predicate OnWay(e: Edge, p: seq<string>) {
    exists i :: 0 <= i < |p| - 1 && IsHop(e, p[i], p[i + 1])
  }

  predicate IsExit(e: Edge, p: seq<string>, z: string) {
    p != [] && IsHop(e, p[|p| - 1], z)
  }

  function Exits(edges: seq<Edge>, p: seq<string>, z: string): (r: seq<Edge>)
    ensures forall e :: e in r <==> e in edges && IsExit(e, p, z)
  {
    if edges == [] then []
    else (if IsExit(edges[0], p, z) then [edges[0]] else []) + Exits(edges[1..], p, z)
  }

  function Hops(edges: seq<Edge>, p: seq<string>): (r: seq<Edge>)
    ensures forall e :: e in r <==> e in edges && OnWay(e, p)
  {
    if edges == [] then []
    else (if OnWay(edges[0], p) then [edges[0]] else []) + Hops(edges[1..], p)
  }

  function Others(edges: seq<Edge>, p: seq<string>, z: string): (r: seq<Edge>)
    ensures forall e :: e in r <==> e in edges && !IsExit(e, p, z) && !OnWay(e, p)
  {
    if edges == [] then []
    else (if !IsExit(edges[0], p, z) && !OnWay(edges[0], p) then [edges[0]] else []) + Others(edges[1..], p, z)
  }

  /** The same edges, the step to `z` first and the steps of the way up last. */
  function Reordered(edges: seq<Edge>, p: seq<string>, z: string): seq<Edge> {
    Exits(edges, p, z) + (Others(edges, p, z) + Hops(edges, p))
  }

  lemma ReorderedSame(edges: seq<Edge>, p: seq<string>, z: string)
    ensures SameEdges(edges, Reordered(edges, p, z))
  {
  }

  lemma NewsHead(e: Edge, rest: seq<Edge>, c: string, visited: set<string>)
    ensures News([e] + rest, c, visited) ==
            if OwnedBy(e, c) && e.target !in visited then [e.target] + News(rest, c, visited + {e.target})
            else News(rest, c, visited)
  {
    assert ([e] + rest)[1..] == rest;
  }

  lemma NoNews(c: string, visited: set<string>)
    ensures News([], c, visited) == []
  {
  }

  lemma {:induction false} NewsConcat(a: seq<Edge>, b: seq<Edge>, c: string, visited: set<string>)
    ensures News(a + b, c, visited) == News(a, c, visited) + News(b, c, visited + SetOf(News(a, c, visited)))
  {
    hide News;
    if a == [] {
      assert a + b == b && visited + SetOf([]) == visited;
      NoNews(c, visited);
    } else {
      var e, rest := a[0], a[1..];
      var isNew := OwnedBy(e, c) && e.target !in visited;
      var v := if isNew then visited + {e.target} else visited;
      NewsHead(e, rest, c, visited);
      NewsHead(e, rest + b, c, visited);
      assert a == [e] + rest && a + b == [e] + (rest + b);
      NewsConcat(rest, b, c, v);
      var news := News(rest, c, v);
      if isNew {
        assert visited + SetOf([e.target] + news) == v + SetOf(news);
      }
    }
  }

  lemma TwoDiffer(s: seq<string>)
    requires |s| >= 2 && forall j, k :: 0 <= j < k < |s| ==> s[j] != s[k]
    ensures s[0] != s[1]
  {
  }

  /** Edges that give `c` one owner at most discover that owner, if it is new. */
  lemma NewsOfOne(edges: seq<Edge>, c: string, visited: set<string>, t: string)
    requires forall e :: e in edges && OwnedBy(e, c) ==> e.target == t
    ensures News(edges, c, visited) == if t !in visited && Steps(edges, Owners, c, t) then [t] else []
  {
    hide News;
    var news := News(edges, c, visited);
    forall k | 0 <= k < |news| ensures news[k] == t {
      assert news[k] in news;
    }
    if |news| >= 2 {
      TwoDiffer(news);
    }
    if Steps(edges, Owners, c, t) {
      NewsIsAll(edges, c, visited, t);
    }
    if |news| == 1 {
      assert news[0] in news;
    }
  }

  /** No resource is passed twice. */
  lemma WayIsSimple(edges: seq<Edge>, id: string, p: seq<string>, z: string, w: string, a: nat, b: nat)
    requires Overtakes(edges, id, p, z, w) && a < b < |p|
    ensures p[a] != p[b]
  {
    hide Steps, Farther;
    var m := |p| - 1;
    assert ClearAt(edges, p, b - 1);
    if a > 0 {
      assert ClearAt(edges, p, a - 1);
      assert p[..b - 1][a - 1] == p[a - 1];
    } else if b < m {
      assert ClearAt(edges, p, b);
      assert p[..b][0] == p[0];
    } else {
      assert p[..m][0] == p[0];
    }
  }

  /** From a resource of the way, the reordered edges discover the next one last. */
  lemma NextIsLast(edges: seq<Edge>, id: string, p: seq<string>, z: string, w: string, i: nat, visited: set<string>)
    requires Overtakes(edges, id, p, z, w) && i < |p| - 1 && p[i + 1] !in visited
    ensures var news := News(Reordered(edges, p, z), p[i], visited);
            news != [] && news[|news| - 1] == p[i + 1]
  {
    hide Overtakes, News;
    var exits, others, hops := Exits(edges, p, z), Others(edges, p, z), Hops(edges, p);
    var early := exits + others;
    assert Reordered(edges, p, z) == early + hops;
    NewsConcat(early, hops, p[i], visited);
    var first := News(early, p[i], visited);
    assert p[i + 1] !in first by { EarlyMisses(edges, id, p, z, w, i); }
    HopsLead(edges, id, p, z, w, i);
    NewsOfOne(hops, p[i], visited + SetOf(first), p[i + 1]);
  }

  lemma EarlyMisses(edges: seq<Edge>, id: string, p: seq<string>, z: string, w: string, i: nat)
    requires Overtakes(edges, id, p, z, w) && i < |p| - 1
    ensures !Steps(Exits(edges, p, z) + Others(edges, p, z), Owners, p[i], p[i + 1])
  {
    WayIsSimple(edges, id, p, z, w, i, |p| - 1);
    hide Overtakes;
    forall e | e in Exits(edges, p, z) + Others(edges, p, z) ensures !IsHop(e, p[i], p[i + 1]) {
      if e in Others(edges, p, z) {
        assert !OnWay(e, p);
      }
    }
  }

  lemma HopsLead(edges: seq<Edge>, id: string, p: seq<string>, z: string, w: string, i: nat)
    requires Overtakes(edges, id, p, z, w) && i < |p| - 1
    ensures forall e :: e in Hops(edges, p) && OwnedBy(e, p[i]) ==> e.target == p[i + 1]
    ensures Steps(Hops(edges, p), Owners, p[i], p[i + 1])
  {
    assert ClearAt(edges, p, i);
    var f :| f in edges && Owners.Follows(f) && Owners.Here(f) == p[i] && Owners.There(f) == p[i + 1];
    assert IsHop(f, p[i], p[i + 1]) && OnWay(f, p);
    forall e | e in Hops(edges, p) && OwnedBy(e, p[i]) ensures e.target == p[i + 1] {
      var j :| 0 <= j < |p| - 1 && IsHop(e, p[j], p[j + 1]);
      if i < j {
        WayIsSimple(edges, id, p, z, w, i, j);
      } else if j < i {
        WayIsSimple(edges, id, p, z, w, j, i);
      }
    }
  }

  /** From the end of the way, they discover `z` first. */
  lemma ExitIsFirst(edges: seq<Edge>, id: string, p: seq<string>, z: string, w: string, visited: set<string>)
    requires Overtakes(edges, id, p, z, w) && z !in visited
    ensures var news := News(Reordered(edges, p, z), p[|p| - 1], visited);
            news != [] && news[0] == z
  {
    var c, exits, rest := p[|p| - 1], Exits(edges, p, z), Others(edges, p, z) + Hops(edges, p);
    var f :| f in edges && Owners.Follows(f) && Owners.Here(f) == c && Owners.There(f) == z;
    assert IsExit(f, p, z) && f in exits;
    hide Overtakes, News;
    NewsConcat(exits, rest, c, visited);
    NewsOfOne(exits, c, visited, z);
  }

  /** The search on the reordered edges after following the way to `p[i]`. */
  ghost predicate Followed(edges: seq<Edge>, id: string, p: seq<string>, i: nat, done: seq<string>, visited: set<string>, below: seq<string>)
    requires i < |p|
  {
    && Discover(edges, {}, [id]) == done + Discover(edges, visited, below + [p[i]])
    && (forall x :: x in visited <==> Seen(edges, p[..i], x))
    && (forall x :: x in done ==> x in visited)
  }

  lemma {:induction false} Follows(edges: seq<Edge>, id: string, p: seq<string>, z: string, w: string, i: nat)
    returns (done: seq<string>, visited: set<string>, below: seq<string>)
    requires Overtakes(edges, id, p, z, w) && i < |p|
    ensures Followed(Reordered(edges, p, z), id, p, i, done, visited, below)
  {
    hide Discover, News, Reordered, Overtakes, Steps, Seen;
    var order := Reordered(edges, p, z);
    if i == 0 {
      done, visited, below := [], {}, [];
      WayStarts(edges, id, p, z, w);
      assert [] + [p[0]] == [id];
      assert [] + Discover(order, {}, [id]) == Discover(order, {}, [id]);
      assert p[..0] == [];
      assert forall x :: !Seen(order, [], x) by { NothingSeen(order); }
    } else {
      var c := p[i - 1];
      done, visited, below := Follows(edges, id, p, z, w, i - 1);
      assert p[i] !in visited by { NextIsNew(edges, id, p, z, w, i); }
      NextIsLast(edges, id, p, z, w, i - 1, visited);
      var news := News(order, c, visited);
      DiscoverStep(order, visited, below + [c]);
      var n := |news| - 1;
      assert (below + [c])[..|below|] + news == (below + news[..n]) + [p[i]];
      assert p[..i] == p[..i - 1] + [c];
      forall x ensures x in visited + SetOf(news) <==> Seen(order, p[..i], x) {
        SeenSnoc(order, p[..i - 1], c, x);
        if Steps(order, Owners, c, x) {
          NewsIsAll(order, c, visited, x);
        }
      }
      var more := Discover(order, visited + SetOf(news), (below + news[..n]) + [p[i]]);
      assert done + (news + more) == (done + news) + more;
      done, visited, below := done + news, visited + SetOf(news), below + news[..n];
    }
  }

  lemma WayStarts(edges: seq<Edge>, id: string, p: seq<string>, z: string, w: string)
    requires Overtakes(edges, id, p, z, w)
    ensures p != [] && p[0] == id
  {
  }

  lemma NothingSeen(edges: seq<Edge>)
    ensures forall x :: !Seen(edges, [], x)
  {
  }

  lemma NextIsNew(edges: seq<Edge>, id: string, p: seq<string>, z: string, w: string, i: nat)
    requires Overtakes(edges, id, p, z, w) && 0 < i < |p|
    ensures !Seen(Reordered(edges, p, z), p[..i - 1], p[i])
  {
    hide Steps, Farther;
    ReorderedSame(edges, p, z);
    SameSteps(edges, Reordered(edges, p, z));
    assert ClearAt(edges, p, i - 1);
  }

  lemma OvertakenIsDisorder(edges: seq<Edge>, id: string, p: seq<string>, z: string, w: string)
    requires Overtakes(edges, id, p, z, w)
    ensures !AlwaysNearest(Reordered(edges, p, z), id)
  {
    hide Discover, News, Reordered, AlwaysNearest, Steps, Leads, Seen;
    var order, m := Reordered(edges, p, z), |p| - 1;
    ReorderedSame(edges, p, z);
    SameOvertakes(edges, order, id, p, z, w);
    var done, visited, below := Follows(edges, id, p, z, w, m);
    var found := Discover(order, {}, [id]);
    ExitIsFirst(edges, id, p, z, w, visited);
    DiscoverStep(order, visited, below + [p[m]]);
    var j := |done|;
    assert found[j] == z;
    FartherIsReachable(order, id, z, w);
    DiscoveredIsReachable(order, id, w);
    NotFartherThanItself(order, id, z);
    var k :| 0 <= k < |found| && found[k] == w;
    assert w !in done && forall i :: 0 <= i < j ==> found[i] == done[i];
    assert k >= j;
    InwardIsNotNearest(order, id, j, k);
  }

  lemma FartherIsReachable(edges: seq<Edge>, id: string, a: string, b: string)
    requires Farther(edges, id, a, b)
    ensures Reachable(edges, Owners, id, b)
  {
  }

  /**
   * Over every listing of the same edges and every assignment of kinds the search answers nearest exactly when
   * no way up without shortcuts comes upon an owner while a nearer one is out of sight: a condition on the graph.
   */
  lemma NearestInEveryOrderIff(edges: seq<Edge>, id: string)
    ensures NearestInEveryOrder(edges, id) <==> !exists p, z, w :: Overtakes(edges, id, p, z, w)
  {
    hide AlwaysNearest, Overtakes, Reordered;
    if p, z, w :| Overtakes(edges, id, p, z, w) {
      ReorderedSame(edges, p, z);
      OvertakenIsDisorder(edges, id, p, z, w);
    }
    if !NearestInEveryOrder(edges, id) {
      var order :| SameEdges(edges, order) && !AlwaysNearest(order, id);
      DisorderOvertakes(order, id);
      var p, z, w :| Overtakes(order, id, p, z, w);
      SameOvertakes(order, edges, id, p, z, w);
    }
  }
}
