// The full expansion of the forest renderer (crates/cgx-cli/src/forest.rs, render_full and
// expand_full): a budgeted depth-first walk with cycle cut-off, proved to print exactly the
// budget's worth of the unbudgeted preorder.
module Expansion {
  import opened Prelude
  import opened Graph
  import opened Rows
  import opened Budget
  import opened Tally
  import opened Forest
  import opened Sequences
  import Sorting

  const DEFAULT_TREE_DEPTH: nat := 2

  // What the renderer indexes without checking: every edge target has a record. Buckets are
  // created on first use, so none is empty.
  ghost predicate Closed(f: Forest) {
    && (forall n | n in f.children :: f.children[n] != [])
    && (forall n | n in f.children :: forall i | 0 <= i < |f.children[n]| :: f.children[n][i].dst in f.nodes)
  }

  function Kids(f: Forest, n: NodeId): seq<EdgeRec> {
    if n in f.children then f.children[n] else []
  }

  lemma NewIsClosed(nodes: map<NodeId, NodeRecord>, edges: seq<EdgeRec>, f: Forest)
    requires forall i | 0 <= i < |edges| :: edges[i].dst in nodes
    requires f.nodes == nodes
    requires forall n :: n in f.children <==> OutEdges(edges, n) != []
    requires forall n | n in f.children :: f.children[n] == Bucket(nodes, edges, n)
    ensures Closed(f)
  {
    forall n | n in f.children
      ensures f.children[n] != [] && forall i | 0 <= i < |f.children[n]| :: f.children[n][i].dst in f.nodes
    {
      BucketClosed(nodes, edges, n, f.children[n]);
    }
  }

  lemma BucketClosed(nodes: map<NodeId, NodeRecord>, edges: seq<EdgeRec>, n: NodeId, bucket: seq<EdgeRec>)
    requires forall i | 0 <= i < |edges| :: edges[i].dst in nodes
    requires OutEdges(edges, n) != [] && bucket == Bucket(nodes, edges, n)
    ensures bucket != [] && forall i | 0 <= i < |bucket| :: bucket[i].dst in nodes
  {
    BucketWithin(nodes, edges, n);
    forall i | 0 <= i < |bucket| ensures bucket[i].dst in nodes {
      assert bucket[i] in edges;
    }
  }

  lemma {:induction false} OutEdgesWithin(edges: seq<EdgeRec>, n: NodeId)
    ensures forall e | e in OutEdges(edges, n) :: e in edges && e.src == n
    decreases |edges|
  {
    if edges != [] {
      OutEdgesWithin(edges[..|edges| - 1], n);
    }
  }

  lemma BucketWithin(nodes: map<NodeId, NodeRecord>, edges: seq<EdgeRec>, n: NodeId)
    ensures forall e | e in Bucket(nodes, edges, n) :: e in edges && e.src == n
    ensures OutEdges(edges, n) != [] ==> Bucket(nodes, edges, n) != []
  {
    var out := OutEdges(edges, n);
    var sorted := Sorting.Sort(out, ByTarget(nodes));
    OutEdgesWithin(edges, n);
    forall e | e in Bucket(nodes, edges, n) ensures e in edges && e.src == n {
      DedupKeepsKinds(sorted, e);
      assert e in multiset(sorted);
      assert e in multiset(out);
    }
  }

  // ---- the unbudgeted expansion ----

  ghost function Rest(f: Forest, anc: seq<NodeId>): set<NodeId> {
    f.nodes.Keys - (set a | a in anc)
  }

  ghost function Expand(f: Forest, node: NodeId, depth: nat, limit: nat, anc: seq<NodeId>,
                        lasts: seq<bool>): (ts: seq<Tree>)
    requires Closed(f)
    decreases Rest(f, anc), 1
  {
    if depth > limit then []
    else
      var es := Kids(f, node);
      seq(|es|, i requires 0 <= i < |es| => EdgeTree(f, es[i], i == |es| - 1, depth, limit, anc, lasts))
  }

  ghost function EdgeTree(f: Forest, e: EdgeRec, isLast: bool, depth: nat, limit: nat,
                          anc: seq<NodeId>, lasts: seq<bool>): Tree
    requires Closed(f) && e.dst in f.nodes
    decreases Rest(f, anc), 0
  {
    var cycle := e.dst in anc;
    Tree(Row(lasts, isLast, e.dst, e.condition, e.confidence, cycle, 0),
         if cycle then []
         else
           assert e.dst in Rest(f, anc) && e.dst !in Rest(f, anc + [e.dst]);
           Expand(f, e.dst, depth + 1, limit, anc + [e.dst], lasts + [isLast]))
  }

  lemma {:induction false} ExpandHangs(f: Forest, node: NodeId, depth: nat, limit: nat, anc: seq<NodeId>,
                                       lasts: seq<bool>)
    requires Closed(f)
    ensures Hangs(Expand(f, node, depth, limit, anc, lasts), |lasts|)
    decreases Rest(f, anc)
  {
    if depth <= limit {
      var es := Kids(f, node);
      forall i | 0 <= i < |es|
        ensures var t := EdgeTree(f, es[i], i == |es| - 1, depth, limit, anc, lasts);
                Depth(t.row) == |lasts| && Hangs(t.kids, |lasts| + 1)
      {
        if es[i].dst !in anc {
          assert es[i].dst in Rest(f, anc) && es[i].dst !in Rest(f, anc + [es[i].dst]);
          ExpandHangs(f, es[i].dst, depth + 1, limit, anc + [es[i].dst], lasts + [i == |es| - 1]);
        }
      }
    }
  }

  // ---- the walk ----

  class FullWalk {
    var out: seq<Line>
    var budget: nat
    var truncatedMore: nat
    var depthLimit: nat
    var ancestors: seq<NodeId>
    var parentsIsLast: seq<bool>

    constructor (limit: nat)
      ensures Now() == Progress([], DEFAULT_TREE_BUDGET, 0) && depthLimit == limit
    {
      out, budget, truncatedMore, depthLimit := [], DEFAULT_TREE_BUDGET, 0, limit;
      ancestors, parentsIsLast := [], [];
    }

    function Now(): Progress
      reads this
    {
      Progress(out, budget, truncatedMore)
    }

    // A root's line and everything under it.
    method PrintRoot(f: Forest, root: NodeId)
      requires Closed(f) && root in f.nodes
      modifies this
      ensures depthLimit == old(depthLimit)
      ensures Now() == Emit(WithRoot(old(Now()), root), Flat(Expand(f, root, 1, depthLimit, [root], [])))
    {
      out := out + [RootLine(root)];
      ancestors, parentsIsLast := [root], [];
      ExpandFull(f, root, 1);
    }

    // `depth` counts the ancestors, which are distinct nodes, so it never passes the number of
    // nodes however large the limit.
    method ExpandFull(f: Forest, node: NodeId, depth: nat)
      requires Closed(f)
      requires depth == |ancestors| && Distinct(ancestors) && forall a | a in ancestors :: a in f.nodes
      modifies this
      ensures depth <= |f.nodes|
      ensures ancestors == old(ancestors) && parentsIsLast == old(parentsIsLast)
      ensures depthLimit == old(depthLimit)
      ensures Now() == Emit(old(Now()), Flat(Expand(f, node, depth, depthLimit, ancestors, parentsIsLast)))
      decreases Rest(f, ancestors), 2
    {
      DistinctWithin(ancestors, f.nodes.Keys);
      EmitNothing(Now());
      if depth > depthLimit || node !in f.children {
        assert Expand(f, node, depth, depthLimit, ancestors, parentsIsLast) == [];
        return;
      }
      var edges := f.children[node];
      var lastIdx := |edges| - 1;
      ghost var p, anc, lasts := Now(), ancestors, parentsIsLast;
      ghost var ts := Expand(f, node, depth, depthLimit, anc, lasts);
      ExpandHangs(f, node, depth, depthLimit, anc, lasts);
      for i := 0 to |edges|
        invariant ancestors == anc && parentsIsLast == lasts && depthLimit == old(depthLimit)
        invariant Now() == Emit(p, Flat(ts[..i]))
      {
        Sibling(p, ts, i, |lasts|);
        assert ts[i] == EdgeTree(f, edges[i], i == lastIdx, depth, depthLimit, anc, lasts);
        ExpandEdge(f, edges[i], i == lastIdx, depth);
      }
      assert ts[..|edges|] == ts;
    }

    // One turn of the loop over a node's edges.
    method ExpandEdge(f: Forest, edge: EdgeRec, isLast: bool, depth: nat)
      requires Closed(f) && edge.dst in f.nodes
      requires depth == |ancestors| && Distinct(ancestors) && forall a | a in ancestors :: a in f.nodes
      modifies this
      ensures ancestors == old(ancestors) && parentsIsLast == old(parentsIsLast)
      ensures depthLimit == old(depthLimit)
      ensures Now() == AfterSibling(old(Now()), EdgeTree(f, edge, isLast, depth, depthLimit, ancestors, parentsIsLast))
      decreases Rest(f, ancestors), 1
    {
      EmitNothing(Now());
      if budget == 0 {
        truncatedMore := truncatedMore + 1;
        return;
      }
      budget := budget - 1;
      var cycle := edge.dst in ancestors;
      out := out + [ChildLine(Row(parentsIsLast, isLast, edge.dst, edge.condition, edge.confidence, cycle, 0))];
      EmitNothing(Now());
      if !cycle {
        Descend(f, edge.dst, isLast, depth);
      }
    }

    // Pushes the node onto the stacks, expands it and pops it.
    method Descend(f: Forest, node: NodeId, isLast: bool, depth: nat)
      requires Closed(f) && node in f.nodes && node !in ancestors
      requires depth == |ancestors| && Distinct(ancestors) && forall a | a in ancestors :: a in f.nodes
      modifies this
      ensures ancestors == old(ancestors) && parentsIsLast == old(parentsIsLast)
      ensures depthLimit == old(depthLimit)
      ensures Now() == Emit(old(Now()), Flat(Expand(f, node, depth + 1, depthLimit, ancestors + [node],
                                                    parentsIsLast + [isLast])))
      decreases Rest(f, ancestors), 0
    {
      ghost var anc, lasts := ancestors, parentsIsLast;
      FartherDown(f, anc, node);
      ancestors, parentsIsLast := ancestors + [node], parentsIsLast + [isLast];
      ExpandFull(f, node, depth + 1);
      ancestors, parentsIsLast := ancestors[..|ancestors| - 1], parentsIsLast[..|parentsIsLast| - 1];
      assert ancestors == anc && parentsIsLast == lasts;
    }
  }

  lemma FartherDown(f: Forest, anc: seq<NodeId>, n: NodeId)
    requires n !in anc && n in f.nodes && Distinct(anc)
    ensures Distinct(anc + [n]) && forall a | a in anc + [n] :: a in anc || a == n
    ensures Rest(f, anc + [n]) < Rest(f, anc)
  {
    assert n in Rest(f, anc) && n !in Rest(f, anc + [n]);
  }

  lemma {:induction false} DistinctWithin<T>(s: seq<T>, u: set<T>)
    requires Distinct(s) && forall x | x in s :: x in u
    ensures |s| <= |u|
    decreases |s|
  {
    if s != [] {
      var t := s[..|s| - 1];
      forall x | x in t ensures x in u - {s[|s| - 1]} {
        var i :| 0 <= i < |t| && t[i] == x;
        assert s[i] != s[|s| - 1];
      }
      DistinctWithin(t, u - {s[|s| - 1]});
      assert s[|s| - 1] in u;
    }
  }
  // ---- a whole rendering ----

  ghost predicate Rooted(f: Forest) {
    Closed(f) && forall i | 0 <= i < |f.roots| :: f.roots[i] in f.nodes
  }

  ghost function Sections(f: Forest, roots: seq<NodeId>, limit: nat): seq<Section>
    requires Closed(f)
  {
    seq(|roots|, i requires 0 <= i < |roots| => Section(roots[i], Expand(f, roots[i], 1, limit, [roots[i]], [])))
  }

  lemma SectionsHang(f: Forest, roots: seq<NodeId>, limit: nat)
    requires Closed(f)
    ensures WellHung(Sections(f, roots, limit))
  {
    forall i | 0 <= i < |roots| ensures Hangs(Sections(f, roots, limit)[i].trees, 0) {
      ExpandHangs(f, roots[i], 1, limit, [roots[i]], []);
    }
  }

  lemma NextRoot(f: Forest, i: nat, limit: nat)
    requires Closed(f) && i < |f.roots|
    ensures var root := f.roots[i];
      After(Sections(f, f.roots[..i + 1], limit), DEFAULT_TREE_BUDGET)
      == Emit(WithRoot(After(Sections(f, f.roots[..i], limit), DEFAULT_TREE_BUDGET), root),
              Flat(Expand(f, root, 1, limit, [root], [])))
  {
    var root := f.roots[i];
    var was, all := Sections(f, f.roots[..i], limit), Sections(f, f.roots[..i + 1], limit);
    var s := Section(root, Expand(f, root, 1, limit, [root], []));
    assert all == was + [s];
    SectionsHang(f, f.roots[..i + 1], limit);
    OneMoreRoot(was, s, DEFAULT_TREE_BUDGET);
  }

  method RenderFull(f: Forest, maxDepth: Option<nat>) returns (lines: seq<Line>, more: nat)
    requires Rooted(f)
    ensures var limit := if maxDepth.Some? then maxDepth.value else DEFAULT_TREE_DEPTH;
      var end := After(Sections(f, f.roots, limit), DEFAULT_TREE_BUDGET);
      lines == end.out && more == end.more
    ensures var ss := Sections(f, f.roots, if maxDepth.Some? then maxDepth.value else DEFAULT_TREE_DEPTH);
      more == RowsCut(ss, DEFAULT_TREE_BUDGET) <==> HidesLeavesOnly(ss, DEFAULT_TREE_BUDGET)
  {
    var limit := if maxDepth.Some? then maxDepth.value else DEFAULT_TREE_DEPTH;
    var w := new FullWalk(limit);
    for i := 0 to |f.roots|
      invariant fresh(w) && w.depthLimit == limit
      invariant w.Now() == After(Sections(f, f.roots[..i], limit), DEFAULT_TREE_BUDGET)
    {
      var root := f.roots[i];
      NextRoot(f, i, limit);
      w.PrintRoot(f, root);
    }
    assert f.roots[..|f.roots|] == f.roots;
    lines, more := w.out, w.truncatedMore;
    SectionsHang(f, f.roots, limit);
    TallyExactly(Sections(f, f.roots, limit), DEFAULT_TREE_BUDGET);
  }

  // ---- a forest whose tally falls short ----

  function Plain(n: NodeId): NodeRecord {
    NodeRecord(Function, "", "", n)
  }

  function Hop(a: NodeId, b: NodeId): EdgeRec {
    EdgeRec(a, b, Always, Certain)
  }

  // Node 0 calls `b + 1` functions, the last of which calls one more.
  function Wide(b: nat): Forest {
    Forest(map n: NodeId | n <= b + 2 :: Plain(n), [0],
           map[0 := seq(b + 1, (i: nat) => Hop(0, i + 1)), b + 1 := [Hop(b + 1, b + 2)]], map[])
  }

  lemma WideTrees(b: nat, i: nat)
    requires Closed(Wide(b)) && i <= b
    ensures var t := EdgeTree(Wide(b), Hop(0, i + 1), i == b, 1, DEFAULT_TREE_DEPTH, [0], []);
      if i < b then t.kids == [] else |t.kids| == 1 && t.kids[0].kids == []
  {
    var f, anc, lasts := Wide(b), [0, i + 1], [i == b];
    var ts := Expand(f, i + 1, 2, 2, anc, lasts);
    assert [0] + [i + 1] == anc && [] + [i == b] == lasts;
    if i == b {
      assert Kids(f, i + 1) == [Hop(i + 1, i + 2)];
      assert ts[0] == EdgeTree(f, Hop(i + 1, i + 2), true, 2, 2, anc, lasts);
      assert i + 2 !in anc;
    }
  }

  lemma WideIsRooted(b: nat)
    ensures Rooted(Wide(b))
  {
  }

  lemma WideShape(b: nat)
    requires Closed(Wide(b))
    ensures var ts := Expand(Wide(b), 0, 1, DEFAULT_TREE_DEPTH, [0], []);
      && |ts| == b + 1 && (forall i | 0 <= i < b :: ts[i].kids == [])
      && |ts[b].kids| == 1 && ts[b].kids[0].kids == []
  {
    var f := Wide(b);
    var es, ts := Kids(f, 0), Expand(f, 0, 1, DEFAULT_TREE_DEPTH, [0], []);
    assert |es| == b + 1 && |ts| == b + 1;
    forall i | 0 <= i <= b ensures if i < b then ts[i].kids == [] else |ts[i].kids| == 1 && ts[i].kids[0].kids == [] {
      assert es[i] == Hop(0, i + 1);
      WideTrees(b, i);
    }
  }

  // With a budget of `b`, two rows of it are cut and the tally is 1.
  lemma TallyFallsShort(b: nat)
    ensures var f := Wide(b);
      && Rooted(f)
      && RowsCut(Sections(f, f.roots, DEFAULT_TREE_DEPTH), b) == 2
      && After(Sections(f, f.roots, DEFAULT_TREE_DEPTH), b).more == 1
  {
    var f := Wide(b);
    WideIsRooted(b);
    WideShape(b);
    var ss, ts := Sections(f, f.roots, DEFAULT_TREE_DEPTH), Expand(f, 0, 1, DEFAULT_TREE_DEPTH, [0], []);
    assert ss == [Section(0, ts)];
    OneSection(0, ts);
    SectionsHang(f, f.roots, DEFAULT_TREE_DEPTH);
    LeavesAndOne(ts, b);
    TallyExactly(ss, b);
  }

  lemma OneSection(root: NodeId, ts: seq<Tree>)
    ensures AllTrees([Section(root, ts)]) == ts
  {
    assert [Section(root, ts)][..0] == [] && AllTrees([]) == [] && [] + ts == ts;
  }
}
