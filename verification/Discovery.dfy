// Which of several shortest parents the spanning forest picks (crates/cgx-cli/src/forest.rs,
// render_spanning): the first one the search takes from its queue.
module Discovery {
  import opened Graph
  import opened Forest
  import opened Expansion
  import opened Spanning
  import opened Sequences

  // `s.order[k]` found `n`, and nothing taken before it has an edge to `n`.
  ghost predicate FirstFinds(f: Forest, s: Search, n: NodeId, k: nat) {
    && n in s.parent && k < |s.order| && s.order[k] == s.parent[n]
    && Step(f, s.order[k], n)
    && forall j | 0 <= j < k :: !Step(f, s.order[j], n)
  }

  // What the first `upTo` nodes taken lead to has been visited.
  ghost predicate Seen(f: Forest, s: Search, upTo: nat) {
    upTo <= |s.order| && forall j, n | 0 <= j < upTo && Step(f, s.order[j], n) :: n in s.visited
  }

  ghost predicate Found(f: Forest, s: Search) {
    && s.parent.Keys <= s.visited
    && forall n | n in s.parent :: exists k :: FirstFinds(f, s, n, k)
  }

  // Every visited node waits or has been taken, once.
  ghost predicate Once(s: Search) {
    Distinct(s.order + s.queue) && forall n :: n in s.visited <==> n in s.order + s.queue
  }

  lemma MeetFinds(f: Forest, s: Search, node: NodeId, n: NodeId)
    requires s.order != [] && s.order[|s.order| - 1] == node && Step(f, node, n)
    requires Found(f, s) && Seen(f, s, |s.order| - 1)
    ensures Found(f, Meet(s, node, n)) && Seen(f, Meet(s, node, n), |s.order| - 1)
  {
    var t := Meet(s, node, n);
    forall m | m in t.parent ensures exists k :: FirstFinds(f, t, m, k) {
      if m in s.visited {
        var k :| FirstFinds(f, s, m, k);
        assert FirstFinds(f, t, m, k);
      } else {
        assert FirstFinds(f, t, n, |s.order| - 1);
      }
    }
  }

  lemma MeetOnce(s: Search, node: NodeId, n: NodeId)
    requires Once(s)
    ensures Once(Meet(s, node, n))
  {
    var t := Meet(s, node, n);
    if n !in s.visited {
      assert t.order + t.queue == (s.order + s.queue) + [n];
    }
  }

  lemma {:induction false} MeetAllFinds(f: Forest, s: Search, node: NodeId, i: nat)
    requires Closed(f) && s.visited <= f.nodes.Keys && i <= |Kids(f, node)|
    requires s.order != [] && s.order[|s.order| - 1] == node
    requires Found(f, s) && Seen(f, s, |s.order| - 1) && Once(s)
    ensures var t := MeetAll(f, s, node, i);
      && Found(f, t) && Seen(f, t, |s.order| - 1) && Once(t)
      && forall j | 0 <= j < i :: Kids(f, node)[j].dst in t.visited
    decreases i
  {
    if i > 0 {
      MeetAllFinds(f, s, node, i - 1);
      var t, n := MeetAll(f, s, node, i - 1), Kids(f, node)[i - 1].dst;
      assert Step(f, node, n);
      MeetFinds(f, t, node, n);
      MeetOnce(t, node, n);
    }
  }

  lemma TakeFinds(f: Forest, s: Search)
    requires Closed(f) && s.visited <= f.nodes.Keys && s.queue != []
    requires Found(f, s) && Seen(f, s, |s.order|) && Once(s)
    ensures var t := MeetAll(f, Dequeued(s), s.queue[0], |Kids(f, s.queue[0])|);
      Found(f, t) && Seen(f, t, |t.order|) && Once(t)
  {
    var d, node := Dequeued(s), s.queue[0];
    assert d.order + d.queue == s.order + s.queue;
    forall n | n in d.parent ensures exists k :: FirstFinds(f, d, n, k) {
      var k :| FirstFinds(f, s, n, k);
      assert FirstFinds(f, d, n, k);
    }
    MeetAllFinds(f, d, node, |Kids(f, node)|);
    var t := MeetAll(f, d, node, |Kids(f, node)|);
    forall j, n | 0 <= j < |t.order| && Step(f, t.order[j], n) ensures n in t.visited {
      if j == |t.order| - 1 {
        var i :| 0 <= i < |Kids(f, node)| && Kids(f, node)[i].dst == n;
      }
    }
  }

  lemma {:induction false} ExploreFinds(f: Forest, s: Search)
    requires Closed(f) && s.visited <= f.nodes.Keys
    requires Found(f, s) && Seen(f, s, |s.order|) && Once(s)
    ensures var t := Explore(f, s);
      Found(f, t) && Seen(f, t, |t.order|) && Once(t) && t.queue == []
    decreases |f.nodes.Keys - s.visited|, |s.queue|
  {
    if s.queue != [] {
      var t := MeetAll(f, Dequeued(s), s.queue[0], |Kids(f, s.queue[0])|);
      Shrinks(f.nodes.Keys, s.visited, t.visited);
      TakeFinds(f, s);
      ExploreFinds(f, t);
    }
  }

  lemma {:induction false} SeedOnce(roots: seq<NodeId>)
    ensures var s := Seeded(roots);
      Once(s) && s.parent == map[] && s.order == []
    decreases |roots|
  {
    if roots != [] {
      var s, r := Seeded(roots[..|roots| - 1]), roots[|roots| - 1];
      SeedOnce(roots[..|roots| - 1]);
      if r !in s.visited {
        assert s.order + (s.queue + [r]) == (s.order + s.queue) + [r];
      }
    }
  }

  // The search takes each visited node once, and every node's parent is the first it takes that has
  // an edge to the node.
  lemma FirstFinder(f: Forest, n: NodeId)
    requires Rooted(f)
    ensures var s := Searched(f);
      && Distinct(s.order) && (n in s.order <==> n in s.visited)
      && (n in s.parent ==> exists k :: FirstFinds(f, s, n, k))
  {
    SeedOnce(f.roots);
    ExploreFinds(f, Seeded(f.roots));
    var s := Searched(f);
    assert s.order + s.queue == s.order;
  }
}
