// The spanning listing names every node reachable from the roots exactly once
// (crates/cgx-cli/src/forest.rs, render_spanning).
module OnceEach {
  import opened Graph
  import opened Rows
  import opened Budget
  import opened Forest
  import opened Expansion
  import opened Spanning
  import opened Emission
  import opened Sequences

  // How often `n` heads a row.
  function Occ(rows: seq<Row>, n: NodeId): nat {
    if rows == [] then 0 else (if rows[0].node == n then 1 else 0) + Occ(rows[1..], n)
  }

  lemma {:induction false} OccAppend(s: seq<Row>, t: seq<Row>, n: NodeId)
    ensures Occ(s + t, n) == Occ(s, n) + Occ(t, n)
    decreases |s|
  {
    if s == [] {
      assert s + t == t;
    } else {
      assert (s + t)[1..] == s[1..] + t;
      OccAppend(s[1..], t, n);
    }
  }

  lemma OccTree(t: Tree, n: NodeId)
    ensures Occ(Flat([t]), n) == (if t.row.node == n then 1 else 0) + Occ(Flat(t.kids), n)
  {
    FlatOne(t);
    var rows := [t.row] + Flat(t.kids);
    assert rows[1..] == Flat(t.kids);
  }

  lemma OccOneMore(ts: seq<Tree>, i: nat, n: NodeId)
    requires 0 < i <= |ts|
    ensures Occ(Flat(ts[..i]), n)
         == Occ(Flat(ts[..i - 1]), n) + (if ts[i - 1].row.node == n then 1 else 0) + Occ(Flat(ts[i - 1].kids), n)
  {
    assert ts[..i] == ts[..i - 1] + [ts[i - 1]];
    FlatAppend(ts[..i - 1], [ts[i - 1]]);
    OccAppend(Flat(ts[..i - 1]), Flat([ts[i - 1]]), n);
    OccTree(ts[i - 1], n);
  }

  // ---- the forest seen from below ----

  // `n` hangs, at any depth, under `a`.
  ghost predicate Under(f: Forest, dist: Dists, parent: Parents, a: NodeId, n: NodeId)
    requires Placed(f, dist, parent)
    decreases if n in dist then dist[n] else 0
  {
    n in parent && (assert Hung(f, dist, parent, n); parent[n] == a || Under(f, dist, parent, a, parent[n]))
  }

  // The child of `a` through which `n` hangs under it.
  ghost function Via(f: Forest, dist: Dists, parent: Parents, a: NodeId, n: NodeId): NodeId
    requires Placed(f, dist, parent) && Under(f, dist, parent, a, n)
    decreases if n in dist then dist[n] else 0
  {
    assert Hung(f, dist, parent, n);
    if parent[n] == a then n else Via(f, dist, parent, a, parent[n])
  }

  lemma {:induction false} ViaKid(f: Forest, dist: Dists, parent: Parents, a: NodeId, n: NodeId)
    requires Placed(f, dist, parent) && Under(f, dist, parent, a, n)
    ensures var c := Via(f, dist, parent, a, n);
      c in parent && parent[c] == a && (n == c || Under(f, dist, parent, c, n))
    ensures a in dist && n in dist && dist[a] < dist[n]
    decreases if n in dist then dist[n] else 0
  {
    assert Hung(f, dist, parent, n);
    if parent[n] != a {
      ViaKid(f, dist, parent, a, parent[n]);
    }
  }

  lemma {:induction false} ViaUnique(f: Forest, dist: Dists, parent: Parents, a: NodeId, c: NodeId, n: NodeId)
    requires Placed(f, dist, parent) && c in parent && parent[c] == a
    requires n == c || Under(f, dist, parent, c, n)
    ensures Under(f, dist, parent, a, n) && Via(f, dist, parent, a, n) == c
    decreases if n in dist then dist[n] else 0
  {
    assert Hung(f, dist, parent, c);
    if n != c {
      assert Hung(f, dist, parent, n);
      ViaKid(f, dist, parent, c, n);
      ViaUnique(f, dist, parent, a, c, parent[n]);
    }
  }

  ghost function RootOf(f: Forest, dist: Dists, parent: Parents, n: NodeId): NodeId
    requires Placed(f, dist, parent)
    decreases if n in dist then dist[n] else 0
  {
    if n in parent then (assert Hung(f, dist, parent, n); RootOf(f, dist, parent, parent[n])) else n
  }

  lemma {:induction false} RootIsOnTop(f: Forest, dist: Dists, parent: Parents, r: NodeId, n: NodeId)
    requires Placed(f, dist, parent) && r in f.roots && n in dist
    ensures n == r || Under(f, dist, parent, r, n) <==> RootOf(f, dist, parent, n) == r
    ensures RootOf(f, dist, parent, n) in f.roots
    decreases dist[n]
  {
    assert r in parent ==> Hung(f, dist, parent, r);
    if n in parent {
      assert Hung(f, dist, parent, n);
      RootIsOnTop(f, dist, parent, r, parent[n]);
    }
  }

  // ---- counting rows ----

  ghost predicate Hanging(f: Forest, dist: Dists, parent: Parents, kids: KidLists) {
    Placed(f, dist, parent) && Inverse(parent, kids) && Levelled(dist, kids)
  }

  // Under `node`, each of its descendants has one row, and nothing else has any.
  lemma {:induction false} RowsUnder(f: Forest, dist: Dists, parent: Parents, kids: KidLists, node: NodeId,
                                     lasts: seq<bool>, n: NodeId)
    requires Hanging(f, dist, parent, kids)
    ensures Occ(Flat(SpanTrees(f, dist, kids, node, lasts)), n) == if Under(f, dist, parent, node, n) then 1 else 0
    decreases Below(dist, node), 1, 0
  {
    var ks := KidsOf(kids, node);
    var ts := SpanTrees(f, dist, kids, node, lasts);
    assert ts[..|ks|] == ts && ks[..|ks|] == ks;
    RowsOfSiblings(f, dist, parent, kids, node, lasts, n, |ks|);
    if Under(f, dist, parent, node, n) {
      ViaKid(f, dist, parent, node, n);
      assert Listed(parent, kids, Via(f, dist, parent, node, n));
    }
  }

  lemma {:induction false} RowsOfSiblings(f: Forest, dist: Dists, parent: Parents, kids: KidLists, node: NodeId,
                                          lasts: seq<bool>, n: NodeId, i: nat)
    requires Hanging(f, dist, parent, kids) && i <= |KidsOf(kids, node)|
    ensures Occ(Flat(SpanTrees(f, dist, kids, node, lasts)[..i]), n)
         == if Under(f, dist, parent, node, n) && Via(f, dist, parent, node, n) in KidsOf(kids, node)[..i] then 1 else 0
    decreases Below(dist, node), 0, i
  {
    var ks := KidsOf(kids, node);
    var ts := SpanTrees(f, dist, kids, node, lasts);
    if i > 0 {
      var c, last := ks[i - 1], i == |ks|;
      RowsOfSiblings(f, dist, parent, kids, node, lasts, n, i - 1);
      assert c in Below(dist, node) && c !in Below(dist, c);
      RowsUnder(f, dist, parent, kids, c, lasts + [last], n);
      assert ts[i - 1] == SpanTree(f, dist, kids, node, c, lasts, last);
      OccOneMore(ts, i, n);
      OneKid(f, dist, parent, kids, node, n, i);
    } else {
      assert ts[..0] == [];
    }
  }

  // The i-th child adds exactly the descendants that hang through it.
  lemma OneKid(f: Forest, dist: Dists, parent: Parents, kids: KidLists, node: NodeId, n: NodeId, i: nat)
    requires Hanging(f, dist, parent, kids) && 0 < i <= |KidsOf(kids, node)|
    ensures var ks := KidsOf(kids, node); var c := ks[i - 1];
      && !(n == c && Under(f, dist, parent, c, n))
      && (n == c || Under(f, dist, parent, c, n)
          <==> Under(f, dist, parent, node, n) && Via(f, dist, parent, node, n) == c)
      && c !in ks[..i - 1] && ks[..i] == ks[..i - 1] + [c]
  {
    var ks := KidsOf(kids, node);
    var c := ks[i - 1];
    assert Lists(parent, kids, node);
    assert c in parent && parent[c] == node;
    if Under(f, dist, parent, c, n) {
      ViaKid(f, dist, parent, c, n);
    }
    if n == c || Under(f, dist, parent, c, n) {
      ViaUnique(f, dist, parent, node, c, n);
    } else if Under(f, dist, parent, node, n) {
      ViaKid(f, dist, parent, node, n);
    }
  }

  // ---- the listing ----

  // How often a listing names `n`, on a root line or a child line.
  function Named(s: seq<Line>, n: NodeId): nat {
    if s == [] then 0
    else
      var node := match s[0] case RootLine(r) => r case ChildLine(row) => row.node;
      (if node == n then 1 else 0) + Named(s[1..], n)
  }

  lemma {:induction false} NamedAppend(s: seq<Line>, t: seq<Line>, n: NodeId)
    ensures Named(s + t, n) == Named(s, n) + Named(t, n)
    decreases |s|
  {
    if s == [] {
      assert s + t == t;
    } else {
      assert (s + t)[1..] == s[1..] + t;
      NamedAppend(s[1..], t, n);
    }
  }

  lemma {:induction false} NamedLines(rows: seq<Row>, n: NodeId)
    ensures Named(Lines(rows), n) == Occ(rows, n)
    decreases |rows|
  {
    if rows != [] {
      assert Lines(rows)[1..] == Lines(rows[1..]);
      NamedLines(rows[1..], n);
    }
  }

  lemma NamedSection(s: Section, n: NodeId)
    ensures Named(SectionLines(s), n) == (if s.root == n then 1 else 0) + Occ(Flat(s.trees), n)
  {
    var ls := Lines(Flat(s.trees));
    assert SectionLines(s)[1..] == ls;
    NamedLines(Flat(s.trees), n);
  }

  lemma {:induction false} ListingNames(f: Forest, dist: Dists, parent: Parents, kids: KidLists, roots: seq<NodeId>,
                                        n: NodeId)
    requires Hanging(f, dist, parent, kids)
    requires forall r | r in roots :: r in f.roots && r in dist
    ensures Named(Listing(SpanSections(f, dist, kids, roots)), n)
         == if n in dist then multiset(roots)[RootOf(f, dist, parent, n)] else 0
    decreases |roots|
  {
    if roots != [] {
      var init, r := roots[..|roots| - 1], roots[|roots| - 1];
      assert roots == init + [r];
      ListingNames(f, dist, parent, kids, init, n);
      OneMoreNamed(f, dist, parent, kids, init, r, n);
      RootAdds(f, dist, parent, r, n);
    } else {
      assert SpanSections(f, dist, kids, roots) == [];
    }
  }

  lemma OneMoreNamed(f: Forest, dist: Dists, parent: Parents, kids: KidLists, roots: seq<NodeId>, r: NodeId, n: NodeId)
    requires Hanging(f, dist, parent, kids)
    ensures Named(Listing(SpanSections(f, dist, kids, roots + [r])), n)
         == Named(Listing(SpanSections(f, dist, kids, roots)), n)
            + (if r == n then 1 else 0) + if Under(f, dist, parent, r, n) then 1 else 0
  {
    var was, s := SpanSections(f, dist, kids, roots), Section(r, SpanTrees(f, dist, kids, r, []));
    assert SpanSections(f, dist, kids, roots + [r]) == was + [s];
    UnfoldSections(was, s);
    NamedAppend(Listing(was), SectionLines(s), n);
    NamedSection(s, n);
    RowsUnder(f, dist, parent, kids, r, [], n);
  }

  lemma RootAdds(f: Forest, dist: Dists, parent: Parents, r: NodeId, n: NodeId)
    requires Placed(f, dist, parent) && r in f.roots && r in dist
    ensures !(n == r && Under(f, dist, parent, r, n))
    ensures n == r || Under(f, dist, parent, r, n) <==> n in dist && RootOf(f, dist, parent, n) == r
  {
    assert n in parent ==> Hung(f, dist, parent, n);
    if Under(f, dist, parent, r, n) {
      ViaKid(f, dist, parent, r, n);
    }
    if n in dist {
      RootIsOnTop(f, dist, parent, r, n);
    }
  }

  // With budget to spare, every reachable node is printed as often as its root is listed, and
  // nothing else is printed: exactly once, if no root is listed twice.
  lemma EachReachableOnce(f: Forest, dist: Dists, parent: Parents, kids: KidLists, b: nat, n: NodeId)
    requires Spans(f, dist, parent, kids) && Levelled(dist, kids)
    requires After(SpanSections(f, dist, kids, f.roots), b).more == 0
    ensures var times := Named(After(SpanSections(f, dist, kids, f.roots), b).out, n);
      && times == (if Reachable(f, n) then multiset(f.roots)[RootOf(f, dist, parent, n)] else 0)
      && (Reachable(f, n) ==> RootOf(f, dist, parent, n) in f.roots)
      && (Distinct(f.roots) ==> times == if Reachable(f, n) then 1 else 0)
  {
    var ss := SpanSections(f, dist, kids, f.roots);
    ListingRows(ss);
    FrontierBounds(Cut(Flat(AllTrees(ss)), b));
    assert Cut(Flat(AllTrees(ss)), b) == [];
    KeepAll(Listing(ss), b);
    ListingNames(f, dist, parent, kids, f.roots, n);
    VisitedIsReachable(f, dist, parent, kids, n);
    if n in dist {
      assert f.roots != [] by {
        var w :| WalkTo(f, n, w);
      }
      RootIsOnTop(f, dist, parent, f.roots[0], n);
      if Distinct(f.roots) {
        DistinctCount(f.roots, RootOf(f, dist, parent, n));
      }
    }
  }

  // So the spanning listing, when nothing is cut, names every reachable node exactly once.
  lemma SpanningListsOnce(f: Forest, b: nat, lines: seq<Line>, n: NodeId)
    requires Rooted(f) && SpanningListing(f, b, lines, 0) && Distinct(f.roots)
    ensures Named(lines, n) == if Reachable(f, n) then 1 else 0
  {
    var dist, parent, kids :| Planned(f, dist, parent, kids) && Prints(f, dist, kids, b, lines, 0);
    EachReachableOnce(f, dist, parent, kids, b, n);
  }

  lemma {:induction false} KeepAll(s: seq<Line>, b: nat)
    requires Children(s) <= b
    ensures Keep(s, b) == s
    decreases |s|
  {
    if s != [] {
      KeepAll(s[1..], if s[0].RootLine? then b else b - 1);
    }
  }
}
