// The spanning forest of the forest renderer (crates/cgx-cli/src/forest.rs, render_spanning): the
// breadth-first parent assignment, proved to give every reachable node one parent on a shortest
// path from the roots.
module Spanning {
  import opened Graph
  import opened Forest
  import opened Expansion
  import opened Sequences

  ghost predicate Step(f: Forest, a: NodeId, b: NodeId) {
    exists i | 0 <= i < |Kids(f, a)| :: Kids(f, a)[i].dst == b
  }

  ghost predicate Walk(f: Forest, w: seq<NodeId>) {
    w != [] && w[0] in f.roots && forall i | 0 <= i < |w| - 1 :: Step(f, w[i], w[i + 1])
  }

  ghost predicate WalkTo(f: Forest, n: NodeId, w: seq<NodeId>) {
    Walk(f, w) && w[|w| - 1] == n
  }

  ghost predicate Reachable(f: Forest, n: NodeId) {
    exists w :: WalkTo(f, n, w)
  }

  type Dists = map<NodeId, nat>
  type Parents = map<NodeId, NodeId>
  type KidLists = map<NodeId, seq<NodeId>>

  ghost predicate Lists(parent: Parents, kids: KidLists, p: NodeId) {
    && p in kids && kids[p] != [] && Distinct(kids[p])
    && forall i | 0 <= i < |kids[p]| :: kids[p][i] in parent && parent[kids[p][i]] == p
  }

  ghost predicate Listed(parent: Parents, kids: KidLists, n: NodeId) {
    n in parent && parent[n] in kids && n in kids[parent[n]]
  }

  // `kids` lists each parent's children, each once.
  ghost predicate Inverse(parent: Parents, kids: KidLists) {
    && (forall p {:trigger Lists(parent, kids, p)} | p in kids :: Lists(parent, kids, p))
    && (forall n {:trigger Listed(parent, kids, n)} | n in parent :: Listed(parent, kids, n))
  }

  // `n` hangs one level below its parent, along an edge.
  ghost predicate Hung(f: Forest, dist: Dists, parent: Parents, n: NodeId) {
    && n in parent && n in dist && n !in f.roots && parent[n] in dist
    && Step(f, parent[n], n) && dist[n] == dist[parent[n]] + 1
  }

  // Every visited node but the roots is hung.
  ghost predicate Placed(f: Forest, dist: Dists, parent: Parents) {
    && (forall n | n in dist :: n in f.nodes)
    && (forall n | n in dist && n in f.roots :: dist[n] == 0)
    && (forall n | n in dist :: n in f.roots || n in parent)
    && (forall n {:trigger Hung(f, dist, parent, n)} | n in parent :: Hung(f, dist, parent, n))
  }

  // Out of `n` nothing is missing, and nothing is more than one level further.
  ghost predicate Settled(f: Forest, dist: Dists, n: NodeId, upTo: nat) {
    && n in dist && upTo <= |Kids(f, n)|
    && forall i | 0 <= i < upTo :: Kids(f, n)[i].dst in dist && dist[Kids(f, n)[i].dst] <= dist[n] + 1
  }

  ghost predicate AllSettled(f: Forest, done: set<NodeId>, dist: Dists) {
    forall n {:trigger Settled(f, dist, n, |Kids(f, n)|)} | n in done :: Settled(f, dist, n, |Kids(f, n)|)
  }

  // The queue holds the frontier in order of level, at most two levels at a time.
  ghost predicate Queued(queue: seq<NodeId>, dist: Dists, d: nat) {
    && (forall i | 0 <= i < |queue| :: queue[i] in dist && d <= dist[queue[i]] <= d + 1)
    && (forall i, j | 0 <= i < j < |queue| :: dist[queue[i]] <= dist[queue[j]])
    && (forall n | n in dist :: dist[n] <= d + 1)
  }

  ghost predicate Covered(done: set<NodeId>, queue: seq<NodeId>, dist: Dists) {
    forall n | n in dist :: n in done || n in queue
  }

  // ---- the search as a function of the forest ----

  // `order` lists the nodes dequeued so far.
  datatype Search = Search(visited: set<NodeId>, parent: Parents, kids: KidLists, queue: seq<NodeId>,
                           order: seq<NodeId>)

  function KidsWith(kids: KidLists, p: NodeId, n: NodeId): KidLists {
    kids[p := (if p in kids then kids[p] else []) + [n]]
  }

  function Meet(s: Search, node: NodeId, n: NodeId): Search {
    if n in s.visited then s
    else Search(s.visited + {n}, s.parent[n := node], KidsWith(s.kids, node, n), s.queue + [n], s.order)
  }

  // After the first `i` edges out of `node`.
  function MeetAll(f: Forest, s: Search, node: NodeId, i: nat): (t: Search)
    requires Closed(f) && s.visited <= f.nodes.Keys && i <= |Kids(f, node)|
    ensures s.visited <= t.visited <= f.nodes.Keys && (t.visited == s.visited ==> t == s)
    ensures t.order == s.order
  {
    if i == 0 then s else Meet(MeetAll(f, s, node, i - 1), node, Kids(f, node)[i - 1].dst)
  }

  function Dequeued(s: Search): Search
    requires s.queue != []
  {
    s.(queue := s.queue[1..], order := s.order + [s.queue[0]])
  }

  function Explore(f: Forest, s: Search): Search
    requires Closed(f) && s.visited <= f.nodes.Keys
    decreases |f.nodes.Keys - s.visited|, |s.queue|
  {
    if s.queue == [] then s
    else
      var t := MeetAll(f, Dequeued(s), s.queue[0], |Kids(f, s.queue[0])|);
      Shrinks(f.nodes.Keys, s.visited, t.visited);
      Explore(f, t)
  }

  function Seeded(roots: seq<NodeId>): (s: Search)
    ensures forall n :: n in s.visited <==> n in roots
  {
    if roots == [] then Search({}, map[], map[], [], [])
    else
      var s, r := Seeded(roots[..|roots| - 1]), roots[|roots| - 1];
      assert roots == roots[..|roots| - 1] + [r];
      if r in s.visited then s else Search(s.visited + {r}, map[], map[], s.queue + [r], [])
  }

  function Searched(f: Forest): Search
    requires Rooted(f)
  {
    assert forall n | n in Seeded(f.roots).visited :: n in f.nodes;
    Explore(f, Seeded(f.roots))
  }

  lemma Discover(f: Forest, dist: Dists, parent: Parents, kids: KidLists, cur: NodeId, n: NodeId)
    requires Placed(f, dist, parent) && Inverse(parent, kids)
    requires cur in dist && n !in dist && n in f.nodes && n !in f.roots && Step(f, cur, n)
    ensures Placed(f, dist[n := dist[cur] + 1], parent[n := cur])
    ensures Inverse(parent[n := cur], KidsWith(kids, cur, n))
  {
    var dist', parent' := dist[n := dist[cur] + 1], parent[n := cur];
    assert n !in parent by {
      assert n in parent ==> Hung(f, dist, parent, n);
    }
    forall m | m in parent' ensures Hung(f, dist', parent', m) {
      assert m != n ==> Hung(f, dist, parent, m);
    }
    InverseGrows(parent, kids, cur, n);
  }

  lemma InverseGrows(parent: Parents, kids: KidLists, cur: NodeId, n: NodeId)
    requires Inverse(parent, kids) && n !in parent
    ensures Inverse(parent[n := cur], KidsWith(kids, cur, n))
  {
    var was := if cur in kids then kids[cur] else [];
    var now := was + [n];
    var parent', kids' := parent[n := cur], kids[cur := now];
    assert cur in kids ==> Lists(parent, kids, cur);
    assert forall i | 0 <= i < |was| :: now[i] == was[i] && was[i] != n;
    assert now[|was|] == n;
    assert Lists(parent', kids', cur);
    forall p | p in kids' ensures Lists(parent', kids', p) {
      assert p != cur ==> Lists(parent, kids, p);
    }
    forall m | m in parent' ensures Listed(parent', kids', m) {
      assert m != n ==> Listed(parent, kids, m);
      if m != n && parent[m] == cur {
        assert m in was;
      }
    }
  }

  // Marking a node one level below `cur` disturbs nothing already settled or queued.
  lemma Enqueue(f: Forest, dist: Dists, queue: seq<NodeId>, done: set<NodeId>, cur: NodeId, n: NodeId, j: nat)
    requires cur in dist && n !in dist && Queued(queue, dist, dist[cur]) && AllSettled(f, done, dist)
    requires Settled(f, dist, cur, j) && j < |Kids(f, cur)| && Kids(f, cur)[j].dst == n
    ensures Queued(queue + [n], dist[n := dist[cur] + 1], dist[cur])
    ensures AllSettled(f, done, dist[n := dist[cur] + 1])
    ensures Settled(f, dist[n := dist[cur] + 1], cur, j + 1)
  {
    var dist' := dist[n := dist[cur] + 1];
    forall m | m in done ensures Settled(f, dist', m, |Kids(f, m)|) {
      assert Settled(f, dist, m, |Kids(f, m)|);
    }
  }

  // Part-way through the edges out of `node`.
  ghost predicate Visiting(f: Forest, s: Search, dist: Dists, done: set<NodeId>, node: NodeId, upTo: nat) {
    && s.visited == dist.Keys && node in dist && (forall r | r in f.roots :: r in dist)
    && Placed(f, dist, s.parent) && Inverse(s.parent, s.kids)
    && Queued(s.queue, dist, dist[node])
    && AllSettled(f, done, dist) && Covered(done + {node}, s.queue, dist) && Settled(f, dist, node, upTo)
  }

  lemma VisitOne(f: Forest, s: Search, dist: Dists, done: set<NodeId>, node: NodeId, j: nat)
    requires Closed(f) && Visiting(f, s, dist, done, node, j) && j < |Kids(f, node)|
    ensures var n := Kids(f, node)[j].dst;
      Visiting(f, Meet(s, node, n), if n in dist then dist else dist[n := dist[node] + 1], done, node, j + 1)
  {
    var n := Kids(f, node)[j].dst;
    if n !in dist {
      Discover(f, dist, s.parent, s.kids, node, n);
      Enqueue(f, dist, s.queue, done, node, n, j);
    }
  }

  lemma {:induction false} VisitAll(f: Forest, s: Search, dist0: Dists, done: set<NodeId>, node: NodeId, i: nat)
    returns (dist: Dists)
    requires Closed(f) && s.visited <= f.nodes.Keys && i <= |Kids(f, node)|
    requires Visiting(f, s, dist0, done, node, 0)
    ensures Visiting(f, MeetAll(f, s, node, i), dist, done, node, i) && dist[node] == dist0[node]
    decreases i
  {
    dist := dist0;
    if i > 0 {
      var n := Kids(f, node)[i - 1].dst;
      dist := VisitAll(f, s, dist0, done, node, i - 1);
      VisitOne(f, MeetAll(f, s, node, i - 1), dist, done, node, i - 1);
      dist := if n in dist then dist else dist[n := dist[node] + 1];
    }
  }

  method VisitEdges(f: Forest, node: NodeId, visited0: set<NodeId>, parent0: Parents, kids0: KidLists,
                    queue0: seq<NodeId>, ghost order: seq<NodeId>)
    returns (visited: set<NodeId>, parent: Parents, kids: KidLists, queue: seq<NodeId>)
    requires Closed(f) && visited0 <= f.nodes.Keys
    ensures Search(visited, parent, kids, queue, order)
         == MeetAll(f, Search(visited0, parent0, kids0, queue0, order), node, |Kids(f, node)|)
  {
    visited, parent, kids, queue := visited0, parent0, kids0, queue0;
    var edges := Kids(f, node);
    ghost var s := Search(visited0, parent0, kids0, queue0, order);
    for j := 0 to |edges|
      invariant Search(visited, parent, kids, queue, order) == MeetAll(f, s, node, j)
    {
      var edge := edges[j];
      if edge.dst in visited {
        continue;
      }
      visited := visited + {edge.dst};
      parent := parent[edge.dst := node];
      kids := KidsWith(kids, node, edge.dst);
      queue := queue + [edge.dst];
    }
  }

  // The outcome: a forest over `dist`'s keys in which levels are depths.
  ghost predicate Spans(f: Forest, dist: Dists, parent: Parents, kids: KidLists) {
    && (forall r | r in f.roots :: r in dist)
    && Placed(f, dist, parent) && Inverse(parent, kids) && AllSettled(f, dist.Keys, dist)
  }

  lemma Pop(queue: seq<NodeId>, dist: Dists, done: set<NodeId>)
    requires queue != [] && queue[0] in dist && Queued(queue, dist, dist[queue[0]]) && Covered(done, queue, dist)
    ensures Queued(queue[1..], dist, dist[queue[0]]) && Covered(done + {queue[0]}, queue[1..], dist)
  {
    assert queue == [queue[0]] + queue[1..];
  }

  lemma NextLevel(queue: seq<NodeId>, dist: Dists, d: nat)
    requires Queued(queue, dist, d)
    ensures queue != [] ==> queue[0] in dist && Queued(queue, dist, dist[queue[0]])
  {
  }

  // Between two turns of the search.
  ghost predicate Searching(f: Forest, s: Search, dist: Dists, done: set<NodeId>) {
    && s.visited == dist.Keys && (forall r | r in f.roots :: r in dist)
    && Placed(f, dist, s.parent) && Inverse(s.parent, s.kids)
    && (s.queue != [] ==> s.queue[0] in dist && Queued(s.queue, dist, dist[s.queue[0]]))
    && AllSettled(f, done, dist) && Covered(done, s.queue, dist)
  }

  lemma Turn(f: Forest, s: Search, dist0: Dists, done: set<NodeId>) returns (dist: Dists)
    requires Closed(f) && s.visited <= f.nodes.Keys && s.queue != [] && Searching(f, s, dist0, done)
    ensures Searching(f, MeetAll(f, Dequeued(s), s.queue[0], |Kids(f, s.queue[0])|), dist, done + {s.queue[0]})
  {
    var node := s.queue[0];
    Pop(s.queue, dist0, done);
    dist := VisitAll(f, Dequeued(s), dist0, done, node, |Kids(f, node)|);
    var t := MeetAll(f, Dequeued(s), node, |Kids(f, node)|);
    NextLevel(t.queue, dist, dist[node]);
  }

  lemma {:induction false} ExploreSpans(f: Forest, s: Search, dist0: Dists, done: set<NodeId>) returns (dist: Dists)
    requires Closed(f) && s.visited <= f.nodes.Keys && Searching(f, s, dist0, done)
    ensures Spans(f, dist, Explore(f, s).parent, Explore(f, s).kids)
    decreases |f.nodes.Keys - s.visited|, |s.queue|
  {
    dist := dist0;
    if s.queue != [] {
      var t := MeetAll(f, Dequeued(s), s.queue[0], |Kids(f, s.queue[0])|);
      Shrinks(f.nodes.Keys, s.visited, t.visited);
      dist := Turn(f, s, dist0, done);
      dist := ExploreSpans(f, t, dist, done + {s.queue[0]});
    }
  }

  lemma {:induction false} SeedsWait(roots: seq<NodeId>)
    ensures var s := Seeded(roots);
      && s == Search(s.visited, map[], map[], s.queue, [])
      && forall n :: n in s.visited <==> n in s.queue
    decreases |roots|
  {
    if roots != [] {
      SeedsWait(roots[..|roots| - 1]);
    }
  }

  // What the search finds is a breadth-first spanning forest.
  lemma SearchSpans(f: Forest) returns (dist: Dists)
    requires Rooted(f)
    ensures Spans(f, dist, Searched(f).parent, Searched(f).kids)
  {
    var s := Seeded(f.roots);
    SeedsWait(f.roots);
    dist := map n | n in s.visited :: 0;
    assert Searching(f, s, dist, {});
    dist := ExploreSpans(f, s, dist, {});
  }

  method Seed(f: Forest) returns (visited: set<NodeId>, queue: seq<NodeId>)
    requires Rooted(f)
    ensures Seeded(f.roots) == Search(visited, map[], map[], queue, [])
  {
    visited, queue := {}, [];
    for i := 0 to |f.roots|
      invariant Seeded(f.roots[..i]) == Search(visited, map[], map[], queue, [])
    {
      assert f.roots[..i + 1][..i] == f.roots[..i];
      var root := f.roots[i];
      if root !in visited {
        visited, queue := visited + {root}, queue + [root];
      }
    }
    assert f.roots[..|f.roots|] == f.roots;
  }

  method Bfs(f: Forest) returns (parent: Parents, kids: KidLists, ghost dist: Dists)
    requires Rooted(f)
    ensures parent == Searched(f).parent && kids == Searched(f).kids
    ensures Spans(f, dist, parent, kids)
  {
    var visited, queue := Seed(f);
    parent, kids := map[], map[];
    ghost var order: seq<NodeId> := [];
    while queue != []
      invariant visited <= f.nodes.Keys && Explore(f, Search(visited, parent, kids, queue, order)) == Searched(f)
      decreases |f.nodes.Keys - visited|, |queue|
    {
      var node := queue[0];
      ghost var s := Search(visited, parent, kids, queue, order);
      order := order + [node];
      assert Dequeued(s) == Search(visited, parent, kids, queue[1..], order);
      visited, parent, kids, queue := VisitEdges(f, node, visited, parent, kids, queue[1..], order);
      assert Explore(f, s) == Explore(f, Search(visited, parent, kids, queue, order));
      Shrinks(f.nodes.Keys, s.visited, visited);
    }
    dist := SearchSpans(f);
  }

  lemma Shrinks<T>(u: set<T>, a: set<T>, b: set<T>)
    requires a <= b && b <= u
    ensures |u - b| <= |u - a| && (a != b ==> |u - b| < |u - a|)
  {
    assert u - a == (u - b) + (b - a);
    if a != b {
      var x :| x in b && x !in a;
      assert x in b - a;
    }
  }

  // ---- levels are distances ----

  lemma {:induction false} WalkBounds(f: Forest, dist: Dists, parent: Parents, kids: KidLists, w: seq<NodeId>)
    requires Spans(f, dist, parent, kids) && Walk(f, w)
    ensures w[|w| - 1] in dist && dist[w[|w| - 1]] <= |w| - 1
    decreases |w|
  {
    if |w| > 1 {
      var v := w[..|w| - 1];
      WalkBounds(f, dist, parent, kids, v);
      var p := v[|v| - 1];
      assert Settled(f, dist, p, |Kids(f, p)|);
      assert Step(f, w[|w| - 2], w[|w| - 1]);
    }
  }

  lemma {:induction false} TreePath(f: Forest, dist: Dists, parent: Parents, kids: KidLists, n: NodeId)
    returns (w: seq<NodeId>)
    requires Spans(f, dist, parent, kids) && n in dist
    ensures WalkTo(f, n, w) && |w| == dist[n] + 1
    decreases dist[n]
  {
    if n in f.roots {
      w := [n];
    } else {
      assert Hung(f, dist, parent, n);
      var v := TreePath(f, dist, parent, kids, parent[n]);
      w := v + [n];
    }
  }

  ghost predicate Distance(f: Forest, n: NodeId, d: nat) {
    && (exists w :: WalkTo(f, n, w) && |w| == d + 1)
    && (forall w | WalkTo(f, n, w) :: |w| >= d + 1)
  }

  lemma VisitedIsReachable(f: Forest, dist: Dists, parent: Parents, kids: KidLists, n: NodeId)
    requires Spans(f, dist, parent, kids)
    ensures n in dist <==> Reachable(f, n)
  {
    if n in dist {
      var w := TreePath(f, dist, parent, kids, n);
    } else if Reachable(f, n) {
      var w :| WalkTo(f, n, w);
      WalkBounds(f, dist, parent, kids, w);
    }
  }

  lemma LevelIsDistance(f: Forest, dist: Dists, parent: Parents, kids: KidLists, n: NodeId)
    requires Spans(f, dist, parent, kids) && n in dist
    ensures Distance(f, n, dist[n])
  {
    var path := TreePath(f, dist, parent, kids, n);
    forall w | WalkTo(f, n, w) ensures |w| >= dist[n] + 1 {
      WalkBounds(f, dist, parent, kids, w);
    }
  }

  // Each non-root has one parent, which precedes it on a shortest path from the roots and lists it
  // once; no root has one.
  lemma OneShortestParent(f: Forest, dist: Dists, parent: Parents, kids: KidLists, n: NodeId)
    requires Spans(f, dist, parent, kids) && Reachable(f, n)
    ensures n in f.roots ==> n !in parent && forall p | p in kids :: n !in kids[p]
    ensures n !in f.roots ==>
              && n in parent && Step(f, parent[n], n)
              && (exists d: nat :: Distance(f, parent[n], d) && Distance(f, n, d + 1))
              && (forall p :: p in kids && n in kids[p] <==> p == parent[n])
              && Distinct(kids[parent[n]])
  {
    VisitedIsReachable(f, dist, parent, kids, n);
    assert n in parent ==> Hung(f, dist, parent, n);
    forall p | p in kids && n in kids[p] ensures n in parent && parent[n] == p {
      assert Lists(parent, kids, p);
    }
    if n !in f.roots {
      LevelIsDistance(f, dist, parent, kids, n);
      LevelIsDistance(f, dist, parent, kids, parent[n]);
      assert Listed(parent, kids, n) && Lists(parent, kids, parent[n]);
    }
  }
}
