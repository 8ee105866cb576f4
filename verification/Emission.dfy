// Printing the spanning forest (crates/cgx-cli/src/forest.rs, render_spanning, emit_spanning and
// tree_edge_meta): every reachable node exactly once, within the row budget.
module Emission {
  import opened Graph
  import opened Rows
  import opened Budget
  import opened Tally
  import opened Forest
  import opened Expansion
  import opened Sequences
  import opened Sorting
  import opened Spanning

  // ---- children in print order ----

  ghost predicate SortedLists(f: Forest, kids: KidLists, sorted: KidLists) {
    sorted.Keys == kids.Keys && forall p | p in kids :: sorted[p] == Sort(kids[p], ById(f.nodes))
  }

  method SortKids(f: Forest, kids: KidLists) returns (sorted: KidLists)
    ensures SortedLists(f, kids, sorted)
  {
    sorted := kids;
    var todo := kids.Keys;
    while todo != {}
      invariant todo <= kids.Keys == sorted.Keys
      invariant forall p | p in kids :: sorted[p] == if p in todo then kids[p] else Sort(kids[p], ById(f.nodes))
      decreases |todo|
    {
      var p :| p in todo;
      sorted := sorted[p := Sort(sorted[p], ById(f.nodes))];
      todo := todo - {p};
    }
  }

  lemma RepeatCount<T>(s: seq<T>, i: nat, j: nat)
    requires i < j < |s| && s[i] == s[j]
    ensures multiset(s)[s[i]] >= 2
  {
    var a, b := s[..j], s[j..];
    assert s == a + b && a[i] == s[i] && b[0] == s[i];
    assert s[i] in multiset(a) && s[i] in multiset(b);
  }

  lemma SortDistinct(f: Forest, s: seq<NodeId>)
    requires Distinct(s)
    ensures var t := Sort(s, ById(f.nodes));
      Distinct(t) && Sorted(t, ById(f.nodes)) && |t| == |s| && forall n :: n in t <==> n in s
  {
    ByTargetIsPreorder(f.nodes);
    var t := Sort(s, ById(f.nodes));
    SortSorted(s, ById(f.nodes));
    assert forall n :: n in t <==> n in multiset(t);
    if i, j :| 0 <= i < j < |t| && t[i] == t[j] {
      RepeatCount(t, i, j);
      DistinctCount(s, t[i]);
      assert false;
    }
  }

  lemma OneSortedList(f: Forest, parent: Parents, kids: KidLists, sorted: KidLists, p: NodeId)
    requires Inverse(parent, kids) && SortedLists(f, kids, sorted) && p in kids
    ensures Lists(parent, sorted, p) && Sorted(sorted[p], ById(f.nodes))
    ensures forall n :: n in sorted[p] <==> n in kids[p]
  {
    assert Lists(parent, kids, p);
    SortDistinct(f, kids[p]);
    forall i | 0 <= i < |sorted[p]| ensures sorted[p][i] in parent && parent[sorted[p][i]] == p {
      assert sorted[p][i] in kids[p];
    }
  }

  lemma SortingKeepsInverse(f: Forest, parent: Parents, kids: KidLists, sorted: KidLists)
    requires Inverse(parent, kids) && SortedLists(f, kids, sorted)
    ensures Inverse(parent, sorted)
    ensures forall p | p in sorted :: Sorted(sorted[p], ById(f.nodes))
  {
    forall p | p in sorted ensures Lists(parent, sorted, p) && Sorted(sorted[p], ById(f.nodes)) {
      OneSortedList(f, parent, kids, sorted, p);
    }
    forall n | n in parent ensures Listed(parent, sorted, n) {
      assert Listed(parent, kids, n);
      OneSortedList(f, parent, kids, sorted, parent[n]);
    }
  }

  // ---- one printed row ----

  // The sort-first induced edge between the two.
  function TreeEdge(edges: seq<EdgeRec>, dst: NodeId): (r: (Condition, Confidence))
    ensures (forall i | 0 <= i < |edges| :: edges[i].dst != dst) ==> r == (Always, Certain)
    ensures (exists i | 0 <= i < |edges| :: edges[i].dst == dst) ==>
              exists i | 0 <= i < |edges| :: edges[i].dst == dst && r == (edges[i].condition, edges[i].confidence)
                                        && forall j | 0 <= j < i :: edges[j].dst != dst
  {
    if edges == [] then (Always, Certain)
    else if edges[0].dst == dst then (edges[0].condition, edges[0].confidence)
    else
      var r := TreeEdge(edges[1..], dst);
      assert forall i | 0 < i < |edges| :: edges[1..][i - 1] == edges[i];
      assert forall i | 0 <= i < |edges| - 1 :: edges[1..][i] == edges[i + 1];
      r
  }

  function ExtraCallSites(f: Forest, n: NodeId): nat {
    if n in f.inDegree && f.inDegree[n] > 0 then f.inDegree[n] - 1 else 0
  }

  function SpanRow(f: Forest, parent: NodeId, n: NodeId, lasts: seq<bool>, isLast: bool): Row {
    var meta := TreeEdge(Kids(f, parent), n);
    Row(lasts, isLast, n, meta.0, meta.1, false, ExtraCallSites(f, n))
  }

  // ---- the unbudgeted trees ----

  // Children sit one level below their parent.
  ghost predicate Levelled(dist: Dists, kids: KidLists) {
    forall p | p in kids ::
      && p in dist && kids[p] != []
      && forall i | 0 <= i < |kids[p]| :: kids[p][i] in dist && dist[kids[p][i]] == dist[p] + 1
  }

  lemma SpansLevelled(f: Forest, dist: Dists, parent: Parents, kids: KidLists)
    requires Placed(f, dist, parent) && Inverse(parent, kids)
    ensures Levelled(dist, kids)
  {
    forall p | p in kids
      ensures p in dist && kids[p] != []
      ensures forall i | 0 <= i < |kids[p]| :: kids[p][i] in dist && dist[kids[p][i]] == dist[p] + 1
    {
      assert Lists(parent, kids, p);
      forall i | 0 <= i < |kids[p]| ensures kids[p][i] in dist && p in dist && dist[kids[p][i]] == dist[p] + 1 {
        assert Hung(f, dist, parent, kids[p][i]);
      }
      assert kids[p][0] in dist;
    }
  }

  ghost function Below(dist: Dists, n: NodeId): set<NodeId> {
    set m | m in dist && n in dist && dist[m] > dist[n]
  }

  function KidsOf(kids: KidLists, n: NodeId): seq<NodeId> {
    if n in kids then kids[n] else []
  }

  ghost function SpanTrees(f: Forest, dist: Dists, kids: KidLists, node: NodeId, lasts: seq<bool>): seq<Tree>
    requires Levelled(dist, kids)
    decreases Below(dist, node), 1
  {
    var ks := KidsOf(kids, node);
    seq(|ks|, i requires 0 <= i < |ks| => SpanTree(f, dist, kids, node, ks[i], lasts, i == |ks| - 1))
  }

  ghost function SpanTree(f: Forest, dist: Dists, kids: KidLists, node: NodeId, n: NodeId, lasts: seq<bool>,
                          isLast: bool): Tree
    requires Levelled(dist, kids) && n in KidsOf(kids, node)
    decreases Below(dist, node), 0
  {
    assert n in Below(dist, node) && n !in Below(dist, n);
    assert Below(dist, n) < Below(dist, node);
    Tree(SpanRow(f, node, n, lasts, isLast), SpanTrees(f, dist, kids, n, lasts + [isLast]))
  }

  lemma {:induction false} SpanTreesHang(f: Forest, dist: Dists, kids: KidLists, node: NodeId, lasts: seq<bool>)
    requires Levelled(dist, kids)
    ensures Hangs(SpanTrees(f, dist, kids, node, lasts), |lasts|)
    decreases Below(dist, node)
  {
    var ks := KidsOf(kids, node);
    forall i | 0 <= i < |ks|
      ensures var t := SpanTree(f, dist, kids, node, ks[i], lasts, i == |ks| - 1);
              Depth(t.row) == |lasts| && Hangs(t.kids, |lasts| + 1)
    {
      assert ks[i] in Below(dist, node) && ks[i] !in Below(dist, ks[i]);
      SpanTreesHang(f, dist, kids, ks[i], lasts + [i == |ks| - 1]);
    }
  }

  // ---- the walk ----

  method EmitSpanning(f: Forest, node: NodeId, kids: KidLists, w: FullWalk, ghost dist: Dists)
    requires Levelled(dist, kids)
    modifies w
    ensures w.parentsIsLast == old(w.parentsIsLast)
    ensures w.Now() == Emit(old(w.Now()), Flat(SpanTrees(f, dist, kids, node, w.parentsIsLast)))
    decreases Below(dist, node), 1
  {
    EmitNothing(w.Now());
    if node !in kids {
      assert SpanTrees(f, dist, kids, node, w.parentsIsLast) == [];
      return;
    }
    var ks := kids[node];
    var lastIdx := |ks| - 1;
    ghost var p, lasts := w.Now(), w.parentsIsLast;
    ghost var ts := SpanTrees(f, dist, kids, node, lasts);
    SpanTreesHang(f, dist, kids, node, lasts);
    for i := 0 to |ks|
      invariant w.parentsIsLast == lasts
      invariant w.Now() == Emit(p, Flat(ts[..i]))
    {
      Sibling(p, ts, i, |lasts|);
      assert ts[i] == SpanTree(f, dist, kids, node, ks[i], lasts, i == lastIdx);
      EmitKid(f, node, ks[i], i == lastIdx, kids, w, dist);
    }
    assert ts[..|ks|] == ts;
  }

  // One turn of the loop over a node's spanning children.
  method EmitKid(f: Forest, node: NodeId, n: NodeId, isLast: bool, kids: KidLists, w: FullWalk, ghost dist: Dists)
    requires Levelled(dist, kids) && n in KidsOf(kids, node)
    modifies w
    ensures w.parentsIsLast == old(w.parentsIsLast)
    ensures w.Now() == AfterSibling(old(w.Now()), SpanTree(f, dist, kids, node, n, w.parentsIsLast, isLast))
    decreases Below(dist, node), 0
  {
    ghost var q, lasts := w.Now(), w.parentsIsLast;
    ghost var t := SpanTree(f, dist, kids, node, n, lasts, isLast);
    if w.budget == 0 {
      w.truncatedMore := w.truncatedMore + 1;
      return;
    }
    w.budget := w.budget - 1;
    w.out := w.out + [ChildLine(SpanRow(f, node, n, w.parentsIsLast, isLast))];
    assert n in Below(dist, node) && n !in Below(dist, n);
    assert t.kids == SpanTrees(f, dist, kids, n, lasts + [isLast]);
    w.parentsIsLast := w.parentsIsLast + [isLast];
    EmitSpanning(f, n, kids, w, dist);
    w.parentsIsLast := w.parentsIsLast[..|w.parentsIsLast| - 1];
    assert w.parentsIsLast == lasts;
  }

  ghost function SpanSections(f: Forest, dist: Dists, kids: KidLists, roots: seq<NodeId>): seq<Section>
    requires Levelled(dist, kids)
  {
    seq(|roots|, i requires 0 <= i < |roots| => Section(roots[i], SpanTrees(f, dist, kids, roots[i], [])))
  }

  lemma SpanSectionsHang(f: Forest, dist: Dists, kids: KidLists, roots: seq<NodeId>)
    requires Levelled(dist, kids)
    ensures WellHung(SpanSections(f, dist, kids, roots))
  {
    forall i | 0 <= i < |roots| ensures Hangs(SpanSections(f, dist, kids, roots)[i].trees, 0) {
      SpanTreesHang(f, dist, kids, roots[i], []);
    }
  }

  // The forest the search finds, with sorted children.
  ghost predicate Planned(f: Forest, dist: Dists, parent: Parents, kids: KidLists)
    requires Rooted(f)
  {
    && Spans(f, dist, parent, kids) && Levelled(dist, kids)
    && parent == Searched(f).parent && SortedLists(f, Searched(f).kids, kids)
    && forall p | p in kids :: Sorted(kids[p], ById(f.nodes))
  }

  // What a budget of `b` prints of such a forest, and the tally of the rows it hides.
  ghost predicate Prints(f: Forest, dist: Dists, kids: KidLists, b: nat, lines: seq<Line>, more: nat)
    requires Levelled(dist, kids)
  {
    var end := After(SpanSections(f, dist, kids, f.roots), b);
    lines == end.out && more == end.more
  }

  ghost predicate SpanningListing(f: Forest, b: nat, lines: seq<Line>, more: nat)
    requires Rooted(f)
  {
    exists dist, parent, kids | Planned(f, dist, parent, kids) :: Prints(f, dist, kids, b, lines, more)
  }

  method Plan(f: Forest) returns (parent: Parents, kids: KidLists, ghost dist: Dists)
    requires Rooted(f)
    ensures Planned(f, dist, parent, kids)
  {
    var found;
    parent, found, dist := Bfs(f);
    kids := SortKids(f, found);
    SortingKeepsInverse(f, parent, found, kids);
    SpansLevelled(f, dist, parent, kids);
  }

  // A root's line and everything under it.
  method EmitRoot(f: Forest, root: NodeId, kids: KidLists, w: FullWalk, ghost dist: Dists)
    requires Levelled(dist, kids)
    modifies w
    ensures w.Now() == Emit(WithRoot(old(w.Now()), root), Flat(SpanTrees(f, dist, kids, root, [])))
  {
    w.out := w.out + [RootLine(root)];
    w.parentsIsLast := [];
    EmitSpanning(f, root, kids, w, dist);
  }

  lemma NextSpanRoot(f: Forest, dist: Dists, kids: KidLists, i: nat)
    requires Levelled(dist, kids) && i < |f.roots|
    ensures After(SpanSections(f, dist, kids, f.roots[..i + 1]), DEFAULT_TREE_BUDGET)
         == Emit(WithRoot(After(SpanSections(f, dist, kids, f.roots[..i]), DEFAULT_TREE_BUDGET), f.roots[i]),
                 Flat(SpanTrees(f, dist, kids, f.roots[i], [])))
  {
    var was, all := SpanSections(f, dist, kids, f.roots[..i]), SpanSections(f, dist, kids, f.roots[..i + 1]);
    var s := Section(f.roots[i], SpanTrees(f, dist, kids, f.roots[i], []));
    assert all == was + [s];
    SpanSectionsHang(f, dist, kids, f.roots[..i + 1]);
    OneMoreRoot(was, s, DEFAULT_TREE_BUDGET);
  }

  method EmitRoots(f: Forest, kids: KidLists, ghost dist: Dists) returns (lines: seq<Line>, more: nat)
    requires Levelled(dist, kids)
    ensures Prints(f, dist, kids, DEFAULT_TREE_BUDGET, lines, more)
  {
    var w := new FullWalk(0xFFFF_FFFF);
    for i := 0 to |f.roots|
      invariant fresh(w)
      invariant w.Now() == After(SpanSections(f, dist, kids, f.roots[..i]), DEFAULT_TREE_BUDGET)
    {
      NextSpanRoot(f, dist, kids, i);
      EmitRoot(f, f.roots[i], kids, w, dist);
    }
    assert f.roots[..|f.roots|] == f.roots;
    lines, more := w.out, w.truncatedMore;
  }

  method RenderSpanning(f: Forest) returns (lines: seq<Line>, more: nat)
    requires Rooted(f)
    ensures SpanningListing(f, DEFAULT_TREE_BUDGET, lines, more)
  {
    var parent, kids, dist := Plan(f);
    lines, more := EmitRoots(f, kids, dist);
  }

  // ---- one listing for each forest ----

  lemma OneForest(f: Forest, dist: Dists, dist': Dists, parent: Parents, kids: KidLists, kids': KidLists)
    requires Rooted(f) && Planned(f, dist, parent, kids) && Planned(f, dist', parent, kids')
    ensures dist == dist' && kids == kids'
  {
    forall n ensures n in dist <==> n in dist' {
      VisitedIsReachable(f, dist, parent, kids, n);
      VisitedIsReachable(f, dist', parent, kids', n);
    }
    forall n | n in dist ensures dist[n] == dist'[n] {
      LevelIsDistance(f, dist, parent, kids, n);
      LevelIsDistance(f, dist', parent, kids', n);
    }
    assert kids.Keys == kids'.Keys;
  }

  // What is printed is determined by the forest.
  lemma SpanningIsDetermined(f: Forest, b: nat, lines: seq<Line>, more: nat, lines': seq<Line>, more': nat)
    requires Rooted(f) && SpanningListing(f, b, lines, more) && SpanningListing(f, b, lines', more')
    ensures lines == lines' && more == more'
  {
    var dist, parent, kids :| Planned(f, dist, parent, kids) && Prints(f, dist, kids, b, lines, more);
    var dist', parent', kids' :| Planned(f, dist', parent', kids') && Prints(f, dist', kids', b, lines', more');
    OneForest(f, dist, dist', parent, kids, kids');
  }

  // Here too the tally is exact when no hidden row has a child.
  lemma SpanningTally(f: Forest, dist: Dists, parent: Parents, kids: KidLists, b: nat, lines: seq<Line>, more: nat)
    requires Rooted(f) && Planned(f, dist, parent, kids) && Prints(f, dist, kids, b, lines, more)
    ensures var ss := SpanSections(f, dist, kids, f.roots);
      more == RowsCut(ss, b) <==> HidesLeavesOnly(ss, b)
  {
    SpanSectionsHang(f, dist, kids, f.roots);
    TallyExactly(SpanSections(f, dist, kids, f.roots), b);
  }
}
