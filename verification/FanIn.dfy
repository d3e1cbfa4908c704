/** Finding where parallel branches meet again (`_find_fan_in_node` in engine.py). */
module FanIn {
  import opened Prelude
  import opened Outcomes
  import opened Graphs

  // ---------------------------------------------------------------------------
  // Distances, independently of any search
  // ---------------------------------------------------------------------------

  predicate HasEdge(edges: seq<Edge>, a: NodeId, b: NodeId) {
    exists e :: e in edges && e.source == a && e.target == b
  }

  /** There is a walk of exactly `k` edges from `a` to `b`. */
  ghost predicate Reaches(edges: seq<Edge>, a: NodeId, b: NodeId, k: nat)
    decreases k
  {
    if k == 0 then a == b
    else exists c :: Reaches(edges, a, c, k - 1) && HasEdge(edges, c, b)
  }

  ghost predicate Reachable(edges: seq<Edge>, a: NodeId, b: NodeId) {
    exists k :: Reaches(edges, a, b, k)
  }

  /** `d` is the length of a shortest walk. */
  ghost predicate IsDistance(edges: seq<Edge>, a: NodeId, b: NodeId, d: nat) {
    Reaches(edges, a, b, d) && forall k: nat :: k < d ==> !Reaches(edges, a, b, k)
  }

  /** The nodes any search from `root` can meet. */
  function Universe(edges: seq<Edge>, root: NodeId): set<NodeId> {
    {root} + set e | e in edges :: e.target
  }

  /** `depths` holds exactly the reachable nodes, each at its shortest distance. */
  ghost predicate IsDepthMap(edges: seq<Edge>, root: NodeId, depths: map<NodeId, nat>) {
    && (forall v :: v in depths <==> Reachable(edges, root, v))
    && (forall v :: v in depths ==> IsDistance(edges, root, v, depths[v]))
  }

  // ---------------------------------------------------------------------------
  // Breadth-first search from one root
  // ---------------------------------------------------------------------------

  type Queue = seq<(NodeId, nat)>

  ghost predicate Sorted(q: Queue) {
    && (forall i, j :: 0 <= i <= j < |q| ==> q[i].1 <= q[j].1)
    && (forall j :: 0 <= j < |q| ==> q[j].1 <= q[0].1 + 1)
  }

  /** Every edge out of a visited node leads to a visited or a queued one, no deeper than one more. */
  ghost predicate Closed(edges: seq<Edge>, visited: map<NodeId, nat>, q: Queue) {
    forall v, u :: v in visited && HasEdge(edges, v, u) ==>
      u in visited || exists i :: 0 <= i < |q| && q[i].0 == u && q[i].1 <= visited[v] + 1
  }

  ghost predicate Frontier(edges: seq<Edge>, root: NodeId, visited: map<NodeId, nat>, q: Queue) {
    && Closed(edges, visited, q)
    && (root in visited || (q != [] && q[0] == (root, 0)))
    && (forall v :: v in visited ==> IsDistance(edges, root, v, visited[v]))
  }

  /** A node within `k` steps is visited already, or something no deeper than `k` is still queued. */
  lemma {:induction false} FrontierCovers(edges: seq<Edge>, root: NodeId, visited: map<NodeId, nat>, q: Queue, u: NodeId, k: nat)
    requires Frontier(edges, root, visited, q) && Reaches(edges, root, u, k)
    ensures u in visited || exists i :: 0 <= i < |q| && q[i].1 <= k
    decreases k
  {
    if k > 0 {
      var c :| Reaches(edges, root, c, k - 1) && HasEdge(edges, c, u);
      FrontierCovers(edges, root, visited, q, c, k - 1);
      if c in visited && u !in visited {
        assert visited[c] <= k - 1;
        var i :| 0 <= i < |q| && q[i].0 == u && q[i].1 <= visited[c] + 1;
      }
    } else if root !in visited {
      assert q[0].1 <= 0;
    }
  }

  lemma PoppedIsShortest(edges: seq<Edge>, root: NodeId, visited: map<NodeId, nat>, q: Queue)
    requires Frontier(edges, root, visited, q) && Sorted(q)
    requires q != [] && q[0].0 !in visited && Reaches(edges, root, q[0].0, q[0].1)
    ensures IsDistance(edges, root, q[0].0, q[0].1)
  {
    forall k: nat | k < q[0].1 ensures !Reaches(edges, root, q[0].0, k) {
      if Reaches(edges, root, q[0].0, k) {
        FrontierCovers(edges, root, visited, q, q[0].0, k);
        assert false;
      }
    }
  }

  /** All the search maintains. */
  ghost predicate Searching(edges: seq<Edge>, root: NodeId, visited: map<NodeId, nat>, q: Queue) {
    && Frontier(edges, root, visited, q)
    && Sorted(q)
    && (forall i :: 0 <= i < |q| ==> Reaches(edges, root, q[i].0, q[i].1))
    && (q != [] ==> forall v :: v in visited ==> visited[v] <= q[0].1)
    && visited.Keys <= Universe(edges, root)
    && (forall i :: 0 <= i < |q| ==> q[i].0 in Universe(edges, root))
  }

  lemma DropVisited(edges: seq<Edge>, root: NodeId, visited: map<NodeId, nat>, q: Queue)
    requires Searching(edges, root, visited, q) && q != [] && q[0].0 in visited
    ensures Searching(edges, root, visited, q[1..])
  {
    var next := q[1..];
    assert forall i :: 0 <= i < |next| ==> next[i] == q[i + 1];
    assert root in visited;
    forall v, u | v in visited && HasEdge(edges, v, u) && u !in visited
      ensures exists i :: 0 <= i < |next| && next[i].0 == u && next[i].1 <= visited[v] + 1
    {
      var i :| 0 <= i < |q| && q[i].0 == u && q[i].1 <= visited[v] + 1;
      assert next[i - 1] == q[i];
    }
    if next != [] {
      forall v | v in visited ensures visited[v] <= next[0].1 {
        assert visited[v] <= q[0].1 && q[0].1 <= q[1].1;
      }
    }
  }

  lemma DrainedIsComplete(edges: seq<Edge>, root: NodeId, visited: map<NodeId, nat>)
    requires Searching(edges, root, visited, [])
    ensures IsDepthMap(edges, root, visited)
  {
    forall v ensures v in visited <==> Reachable(edges, root, v) {
      if Reachable(edges, root, v) {
        var k :| Reaches(edges, root, v, k);
        FrontierCovers(edges, root, visited, [], v, k);
      }
    }
  }

  /** The search loop; it ends on cyclic graphs because every push follows a first visit. */
  method Search(edges: seq<Edge>, root: NodeId) returns (visited: map<NodeId, nat>)
    ensures IsDepthMap(edges, root, visited)
  {
    hide Frontier;
    hide Sorted;
    visited := map[];
    var queue: Queue := [(root, 0)];
    StartsSearching(edges, root);
    while queue != []
      invariant Searching(edges, root, visited, queue)
      decreases |Universe(edges, root) - visited.Keys|, |queue|
    {
      var (id, depth) := queue[0];
      if id in visited {
        DropVisited(edges, root, visited, queue);
        queue := queue[1..];
      } else {
        ghost var before, popped := visited, queue;
        visited := visited[id := depth];
        queue := Enqueue(edges, id, depth, visited, queue[1..]);
        PushSuccessors(edges, root, before, popped, visited, queue);
      }
    }
    DrainedIsComplete(edges, root, visited);
  }

  lemma StartsSearching(edges: seq<Edge>, root: NodeId)
    ensures Searching(edges, root, map[], [(root, 0)])
  {
  }

  /** The queue after appending each unvisited successor of `id`, one deeper. */
  function Pushed(edges: seq<Edge>, id: NodeId, depth: nat, visited: map<NodeId, nat>): Queue {
    if edges == [] then []
    else if edges[0].source == id && edges[0].target !in visited then
      [(edges[0].target, depth + 1)] + Pushed(edges[1..], id, depth, visited)
    else Pushed(edges[1..], id, depth, visited)
  }

  method Enqueue(edges: seq<Edge>, id: NodeId, depth: nat, visited: map<NodeId, nat>, queue: Queue)
    returns (r: Queue)
    ensures r == queue + Pushed(edges, id, depth, visited)
  {
    r := queue;
    assert edges[0..] == edges;
    for i := 0 to |edges|
      invariant r + Pushed(edges[i..], id, depth, visited) == queue + Pushed(edges, id, depth, visited)
    {
      assert edges[i..][1..] == edges[i + 1..];
      if edges[i].source == id && edges[i].target !in visited {
        ghost var rest := Pushed(edges[i + 1..], id, depth, visited);
        assert r + ([(edges[i].target, depth + 1)] + rest) == r + [(edges[i].target, depth + 1)] + rest;
        r := r + [(edges[i].target, depth + 1)];
      }
    }
  }

  lemma {:induction false} PushedMembers(edges: seq<Edge>, id: NodeId, depth: nat, visited: map<NodeId, nat>, x: (NodeId, nat))
    ensures x in Pushed(edges, id, depth, visited) <==>
      HasEdge(edges, id, x.0) && x.0 !in visited && x.1 == depth + 1
  {
    if edges != [] {
      PushedMembers(edges[1..], id, depth, visited, x);
      assert forall e :: e in edges <==> e == edges[0] || e in edges[1..];
    }
  }

  lemma PushSuccessors(edges: seq<Edge>, root: NodeId, before: map<NodeId, nat>, q: Queue,
                       visited: map<NodeId, nat>, next: Queue)
    requires Searching(edges, root, before, q)
    requires q != [] && q[0].0 !in before && visited == before[q[0].0 := q[0].1]
    requires next == q[1..] + Pushed(edges, q[0].0, q[0].1, visited)
    ensures Searching(edges, root, visited, next)
    ensures |Universe(edges, root) - visited.Keys| < |Universe(edges, root) - before.Keys|
  {
    hide Reaches;
    hide Closed;
    var (id, depth) := q[0];
    PoppedIsShortest(edges, root, before, q);
    assert Universe(edges, root) - visited.Keys == Universe(edges, root) - before.Keys - {id};
    hide Universe;
    PushedDepths(edges, root, visited, q, next);
    PushedClosed(edges, before, q, visited, next);
    PushedSorted(q, next, Pushed(edges, id, depth, visited));
    assert root in visited;
  }

  lemma PushedSorted(q: Queue, next: Queue, added: Queue)
    requires Sorted(q) && q != [] && next == q[1..] + added
    requires forall i :: 0 <= i < |next| ==> q[0].1 <= next[i].1 <= q[0].1 + 1 && (i >= |q| - 1 ==> next[i].1 == q[0].1 + 1)
    ensures Sorted(next)
  {
    forall i, j | 0 <= i <= j < |next| ensures next[i].1 <= next[j].1 {
      if j < |q| - 1 { assert next[i] == q[i + 1] && next[j] == q[j + 1]; }
    }
  }

  lemma PushedDepths(edges: seq<Edge>, root: NodeId, visited: map<NodeId, nat>, q: Queue, next: Queue)
    requires Sorted(q) && q != []
    requires forall i :: 0 <= i < |q| ==> Reaches(edges, root, q[i].0, q[i].1) && q[i].0 in Universe(edges, root)
    requires next == q[1..] + Pushed(edges, q[0].0, q[0].1, visited)
    ensures forall i :: 0 <= i < |next| ==>
      && q[0].1 <= next[i].1 <= q[0].1 + 1 && (i >= |q| - 1 ==> next[i].1 == q[0].1 + 1)
      && Reaches(edges, root, next[i].0, next[i].1) && next[i].0 in Universe(edges, root)
  {
    var (id, depth) := q[0];
    var added := Pushed(edges, id, depth, visited);
    forall i | 0 <= i < |next|
      ensures depth <= next[i].1 <= depth + 1 && (i >= |q| - 1 ==> next[i].1 == depth + 1)
      ensures Reaches(edges, root, next[i].0, next[i].1) && next[i].0 in Universe(edges, root)
    {
      if i < |q| - 1 {
        assert next[i] == q[i + 1];
        assert q[0].1 <= q[i + 1].1;
      } else {
        assert next[i] == added[i - (|q| - 1)] && next[i] in added;
        PushedMembers(edges, id, depth, visited, next[i]);
        assert Reaches(edges, root, id, (depth + 1) - 1);
      }
    }
  }

  lemma PushedClosed(edges: seq<Edge>, before: map<NodeId, nat>, q: Queue, visited: map<NodeId, nat>, next: Queue)
    requires Closed(edges, before, q)
    requires q != [] && q[0].0 !in before && visited == before[q[0].0 := q[0].1]
    requires next == q[1..] + Pushed(edges, q[0].0, q[0].1, visited)
    ensures Closed(edges, visited, next)
  {
    var (id, depth) := q[0];
    var added := Pushed(edges, id, depth, visited);
    forall v, u | v in visited && HasEdge(edges, v, u) && u !in visited
      ensures exists i :: 0 <= i < |next| && next[i].0 == u && next[i].1 <= visited[v] + 1
    {
      if v == id {
        PushedMembers(edges, id, depth, visited, (u, depth + 1));
        var j :| 0 <= j < |added| && added[j] == (u, depth + 1);
        assert next[|q| - 1 + j] == (u, depth + 1);
      } else {
        var i :| 0 <= i < |q| && q[i].0 == u && q[i].1 <= before[v] + 1;
        assert next[i - 1] == q[i];
      }
    }
  }

  // ---------------------------------------------------------------------------
  // The fan-in node of several roots
  // ---------------------------------------------------------------------------

  /** Reachable from every root, and not a root itself. */
  ghost predicate CommonDescendant(edges: seq<Edge>, roots: seq<NodeId>, v: NodeId) {
    v !in roots && forall r :: r in roots ==> Reachable(edges, r, v)
  }

  /** `m` is the greatest distance from a root to `v`. */
  ghost predicate IsSpread(edges: seq<Edge>, roots: seq<NodeId>, v: NodeId, m: nat) {
    && (exists r :: r in roots && IsDistance(edges, r, v, m))
    && (forall r, d: nat :: r in roots && IsDistance(edges, r, v, d) ==> d <= m)
  }

  /** A common descendant no other one beats on its greatest distance. */
  ghost predicate IsFanIn(edges: seq<Edge>, roots: seq<NodeId>, v: NodeId) {
    && CommonDescendant(edges, roots, v)
    && (forall u, m: nat, n: nat ::
          CommonDescendant(edges, roots, u) && IsSpread(edges, roots, u, n) && IsSpread(edges, roots, v, m) ==> m <= n)
  }

  /**
   * Ties between equally good nodes fall to set iteration order in the source. Here `prefer`
   * stands for that order: it wins when it is among the best, and any best node can be it.
   */
  ghost predicate IsChoice(edges: seq<Edge>, roots: seq<NodeId>, prefer: NodeId, v: NodeId) {
    && IsFanIn(edges, roots, v)
    && (v == prefer || (!IsFanIn(edges, roots, prefer) && forall u :: IsFanIn(edges, roots, u) ==> LexLe(v, u)))
  }

  lemma ChoiceUnique(edges: seq<Edge>, roots: seq<NodeId>, prefer: NodeId, v: NodeId, u: NodeId)
    requires IsChoice(edges, roots, prefer, v) && IsChoice(edges, roots, prefer, u)
    ensures v == u
  {
    LexTotal(v, u);
  }

  ghost function FanInNode(edges: seq<Edge>, roots: seq<NodeId>, prefer: NodeId): Option<NodeId> {
    if roots == [] then None
    else if v :| IsChoice(edges, roots, prefer, v) then Some(v)
    else None
  }

  // ---------------------------------------------------------------------------
  // Existence: some common descendant implies some choice
  // ---------------------------------------------------------------------------

  lemma {:induction false} LeastDistance(edges: seq<Edge>, a: NodeId, b: NodeId, k: nat) returns (d: nat)
    requires Reaches(edges, a, b, k)
    ensures IsDistance(edges, a, b, d)
    decreases k
  {
    if j: nat :| j < k && Reaches(edges, a, b, j) {
      d := LeastDistance(edges, a, b, j);
    } else {
      d := k;
    }
  }

  lemma DistanceUnique(edges: seq<Edge>, a: NodeId, b: NodeId, d: nat, e: nat)
    requires IsDistance(edges, a, b, d) && IsDistance(edges, a, b, e)
    ensures d == e
  {
  }

  lemma {:induction false} SpreadExists(edges: seq<Edge>, roots: seq<NodeId>, v: NodeId) returns (m: nat)
    requires roots != [] && forall r :: r in roots ==> Reachable(edges, r, v)
    ensures IsSpread(edges, roots, v, m)
  {
    assert Reachable(edges, roots[0], v) by { assert roots[0] in roots; }
    var k :| Reaches(edges, roots[0], v, k);
    var d := LeastDistance(edges, roots[0], v, k);
    forall e: nat | IsDistance(edges, roots[0], v, e) ensures e == d {
      DistanceUnique(edges, roots[0], v, d, e);
    }
    if |roots| == 1 {
      m := d;
      assert roots[0] in roots;
    } else {
      assert forall r :: r in roots <==> r == roots[0] || r in roots[1..];
      var rest := SpreadExists(edges, roots[1..], v);
      m := if d > rest then d else rest;
    }
  }

  lemma SpreadUnique(edges: seq<Edge>, roots: seq<NodeId>, v: NodeId, m: nat, n: nat)
    requires IsSpread(edges, roots, v, m) && IsSpread(edges, roots, v, n)
    ensures m == n
  {
  }

  /** The order in which candidates are preferred: spread, then `prefer`, then name. */
  predicate Better(spread: map<NodeId, nat>, prefer: NodeId, u: NodeId, v: NodeId)
    requires u in spread && v in spread
  {
    spread[u] < spread[v] || (spread[u] == spread[v] && (u == prefer || (v != prefer && LexLe(u, v))))
  }

  lemma BetterTransitive(spread: map<NodeId, nat>, prefer: NodeId, a: NodeId, b: NodeId, c: NodeId)
    requires a in spread && b in spread && c in spread
    requires Better(spread, prefer, a, b) && Better(spread, prefer, b, c)
    ensures Better(spread, prefer, a, c)
  {
    if spread[a] == spread[c] && a != prefer { LexTransitive(a, b, c); }
  }

  lemma {:induction false} BestExists(spread: map<NodeId, nat>, prefer: NodeId, s: set<NodeId>) returns (b: NodeId)
    requires s != {} && s <= spread.Keys
    ensures b in s && forall u :: u in s ==> Better(spread, prefer, b, u)
  {
    var x :| x in s;
    LexTotal(x, x);
    if s == {x} {
      b := x;
    } else {
      var c := BestExists(spread, prefer, s - {x});
      LexTotal(x, c);
      b := if Better(spread, prefer, x, c) then x else c;
      forall u | u in s ensures Better(spread, prefer, b, u) {
        if u != x && b == x { BetterTransitive(spread, prefer, x, c, u); }
      }
    }
  }

  ghost predicate IsSpreadMap(edges: seq<Edge>, roots: seq<NodeId>, spread: map<NodeId, nat>) {
    && (forall v :: v in spread <==> CommonDescendant(edges, roots, v))
    && (forall v :: v in spread ==> IsSpread(edges, roots, v, spread[v]))
  }

  /** The best candidate in that order is the choice. */
  lemma BestIsChoice(edges: seq<Edge>, roots: seq<NodeId>, prefer: NodeId, spread: map<NodeId, nat>, b: NodeId)
    requires roots != [] && IsSpreadMap(edges, roots, spread)
    requires b in spread && forall u :: u in spread ==> Better(spread, prefer, b, u)
    ensures IsChoice(edges, roots, prefer, b) && FanInNode(edges, roots, prefer) == Some(b)
  {
    FanInBySpread(edges, roots, spread, b);
    if b != prefer {
      if IsFanIn(edges, roots, prefer) {
        FanInBySpread(edges, roots, spread, prefer);
      }
      forall u | IsFanIn(edges, roots, u) ensures LexLe(b, u) {
        FanInBySpread(edges, roots, spread, u);
      }
    }
    assert IsChoice(edges, roots, prefer, b);
    forall v | IsChoice(edges, roots, prefer, v) ensures v == b {
      ChoiceUnique(edges, roots, prefer, v, b);
    }
  }

  lemma FanInBySpread(edges: seq<Edge>, roots: seq<NodeId>, spread: map<NodeId, nat>, v: NodeId)
    requires IsSpreadMap(edges, roots, spread)
    ensures IsFanIn(edges, roots, v) <==> v in spread && forall u :: u in spread ==> spread[v] <= spread[u]
  {
    forall u, m: nat | u in spread && IsSpread(edges, roots, u, m) ensures m == spread[u] {
      SpreadUnique(edges, roots, u, m, spread[u]);
    }
  }

  /** No fan-in node is reported exactly when the branches share no descendant. */
  lemma NoFanInExactly(edges: seq<Edge>, roots: seq<NodeId>, prefer: NodeId)
    ensures FanInNode(edges, roots, prefer) == None <==>
      roots == [] || forall v :: !CommonDescendant(edges, roots, v)
  {
    if roots != [] && exists v :: CommonDescendant(edges, roots, v) {
      var spread := SpreadMapExists(edges, roots);
      var v :| CommonDescendant(edges, roots, v);
      assert v in spread;
      var b := BestExists(spread, prefer, spread.Keys);
      BestIsChoice(edges, roots, prefer, spread, b);
    }
  }

  lemma {:induction false} ReachesUniverse(edges: seq<Edge>, a: NodeId, b: NodeId, k: nat)
    requires Reaches(edges, a, b, k)
    ensures b in Universe(edges, a)
  {
    if k > 0 {
      var c :| Reaches(edges, a, c, k - 1) && HasEdge(edges, c, b);
    }
  }

  lemma SpreadMapExists(edges: seq<Edge>, roots: seq<NodeId>) returns (spread: map<NodeId, nat>)
    requires roots != []
    ensures IsSpreadMap(edges, roots, spread)
  {
    forall v | CommonDescendant(edges, roots, v)
      ensures v in Universe(edges, roots[0]) && exists m: nat :: IsSpread(edges, roots, v, m)
    {
      assert roots[0] in roots;
      var k :| Reaches(edges, roots[0], v, k);
      ReachesUniverse(edges, roots[0], v, k);
      var m := SpreadExists(edges, roots, v);
    }
    spread := map v | v in Universe(edges, roots[0]) && CommonDescendant(edges, roots, v) ::
      var m: nat :| IsSpread(edges, roots, v, m); m;
  }

  /** Whatever the iteration order prefers among the best nodes is what is returned. */
  lemma AnyTieCanWin(edges: seq<Edge>, roots: seq<NodeId>, v: NodeId)
    requires IsFanIn(edges, roots, v) && roots != []
    ensures FanInNode(edges, roots, v) == Some(v)
  {
    assert IsChoice(edges, roots, v, v);
    forall u | IsChoice(edges, roots, v, u) ensures u == v {
      ChoiceUnique(edges, roots, v, u, v);
    }
  }

  // ---------------------------------------------------------------------------
  // The method
  // ---------------------------------------------------------------------------

  /** The greatest of the depths of `v`. */
  function MaxDepth(maps: seq<map<NodeId, nat>>, v: NodeId): nat
    requires maps != [] && forall m :: m in maps ==> v in m
  {
    if |maps| == 1 then assert maps[0] in maps; maps[0][v]
    else
      assert maps[0] in maps;
      var rest := MaxDepth(maps[1..], v);
      if maps[0][v] > rest then maps[0][v] else rest
  }

  lemma SpreadOfOne(edges: seq<Edge>, roots: seq<NodeId>, v: NodeId, d: nat)
    requires |roots| == 1 && IsDistance(edges, roots[0], v, d)
    ensures IsSpread(edges, roots, v, d)
  {
    forall e: nat | IsDistance(edges, roots[0], v, e) ensures e == d { DistanceUnique(edges, roots[0], v, e, d); }
    hide IsDistance;
  }

  lemma SpreadWith(edges: seq<Edge>, roots: seq<NodeId>, v: NodeId, d: nat, rest: nat)
    requires |roots| > 1 && IsDistance(edges, roots[0], v, d) && IsSpread(edges, roots[1..], v, rest)
    ensures IsSpread(edges, roots, v, if d > rest then d else rest)
  {
    forall e: nat | IsDistance(edges, roots[0], v, e) ensures e == d { DistanceUnique(edges, roots[0], v, e, d); }
    hide IsDistance;
    assert forall r :: r in roots <==> r == roots[0] || r in roots[1..];
  }

  lemma {:induction false} MaxDepthIsSpread(edges: seq<Edge>, roots: seq<NodeId>, maps: seq<map<NodeId, nat>>, v: NodeId)
    requires |maps| == |roots| > 0 && forall j :: 0 <= j < |roots| ==> IsDepthMap(edges, roots[j], maps[j])
    requires forall m :: m in maps ==> v in m
    ensures IsSpread(edges, roots, v, MaxDepth(maps, v))
  {
    assert maps[0] in maps && roots[0] in roots;
    assert IsDistance(edges, roots[0], v, maps[0][v]);
    if |maps| > 1 {
      MaxDepthIsSpread(edges, roots[1..], maps[1..], v);
      var rest := MaxDepth(maps[1..], v);
      SpreadWith(edges, roots, v, maps[0][v], rest);
    } else {
      SpreadOfOne(edges, roots, v, maps[0][v]);
    }
  }

  method FindFanInNode(edges: seq<Edge>, roots: seq<NodeId>, prefer: NodeId) returns (r: Option<NodeId>)
    ensures r == FanInNode(edges, roots, prefer)
  {
    if roots == [] {
      return None;
    }
    var maps: seq<map<NodeId, nat>> := [];
    for i := 0 to |roots|
      invariant |maps| == i && forall j :: 0 <= j < i ==> IsDepthMap(edges, roots[j], maps[j])
    {
      var visited := Search(edges, roots[i]);
      maps := maps + [visited];
    }
    var common := maps[0].Keys;
    for i := 1 to |maps|
      invariant forall v :: v in common <==> forall j :: 0 <= j < i ==> v in maps[j]
    {
      common := common * maps[i].Keys;
    }
    common := common - set v | v in roots;
    assert forall v :: v in common <==> CommonDescendant(edges, roots, v) by {
      CommonByMaps(edges, roots, maps);
    }
    NoFanInExactly(edges, roots, prefer);
    if common == {} {
      return None;
    }
    assert forall v, m :: v in common && m in maps ==> v in m;
    var spread := map v | v in common :: MaxDepth(maps, v);
    forall v | v in spread ensures IsSpread(edges, roots, v, spread[v]) {
      MaxDepthIsSpread(edges, roots, maps, v);
    }
    assert IsSpreadMap(edges, roots, spread);
    var best := PickBest(spread, prefer);
    BestIsChoice(edges, roots, prefer, spread, best);
    r := Some(best);
  }

  lemma CommonByMaps(edges: seq<Edge>, roots: seq<NodeId>, maps: seq<map<NodeId, nat>>)
    requires |maps| == |roots| && forall j :: 0 <= j < |roots| ==> IsDepthMap(edges, roots[j], maps[j])
    ensures forall v :: CommonDescendant(edges, roots, v) <==>
      v !in roots && forall j :: 0 <= j < |maps| ==> v in maps[j]
  {
    forall v
      ensures CommonDescendant(edges, roots, v) <==> v !in roots && forall j :: 0 <= j < |maps| ==> v in maps[j]
    {
      if CommonDescendant(edges, roots, v) {
        forall j | 0 <= j < |maps| ensures v in maps[j] { assert roots[j] in roots; }
      }
    }
  }

  /** `min` over the candidates. */
  method PickBest(spread: map<NodeId, nat>, prefer: NodeId) returns (best: NodeId)
    requires |spread| > 0
    ensures best in spread && forall u :: u in spread ==> Better(spread, prefer, best, u)
  {
    var rest := spread.Keys;
    best :| best in rest;
    LexTotal(best, best);
    rest := rest - {best};
    while rest != {}
      invariant best in spread && rest <= spread.Keys
      invariant forall u :: u in spread && u !in rest ==> Better(spread, prefer, best, u)
      decreases |rest|
    {
      var u :| u in rest;
      LexTotal(u, best);
      LexTotal(u, u);
      if Better(spread, prefer, u, best) {
        forall v | v in spread && v !in rest ensures Better(spread, prefer, u, v) {
          BetterTransitive(spread, prefer, u, best, v);
        }
        best := u;
      }
      rest := rest - {u};
    }
  }
}
