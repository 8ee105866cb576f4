// What a forest printer prints (crates/cgx-cli/src/forest.rs): rows, the trees they hang in, and
// what remains visible of a preorder listing when a row budget runs out part-way.
module Rows {
  import opened Graph

  // `lasts` records, for each ancestor below the root, whether it was a last child (the prefix
  // columns); a cycle row names a node that is its own ancestor.
  datatype Row = Row(lasts: seq<bool>, isLast: bool, node: NodeId, condition: Condition,
                     confidence: Confidence, cycle: bool, callSites: nat)

  datatype Tree = Tree(row: Row, kids: seq<Tree>)

  function Depth(r: Row): nat {
    |r.lasts|
  }

  // The preorder listing.
  function Flat(ts: seq<Tree>): seq<Row> {
    if ts == [] then [] else [ts[0].row] + Flat(ts[0].kids) + Flat(ts[1..])
  }

  lemma {:induction false} FlatAppend(s: seq<Tree>, t: seq<Tree>)
    ensures Flat(s + t) == Flat(s) + Flat(t)
    decreases |s|
  {
    if s == [] {
      assert s + t == t;
    } else {
      FlatAppend(s[1..], t);
      assert (s + t)[1..] == s[1..] + t;
    }
  }

  lemma FlatOne(t: Tree)
    ensures Flat([t]) == [t.row] + Flat(t.kids)
  {
    assert [t][1..] == [];
  }

  // Every tree hangs at depth `d`, its children one deeper.
  predicate Hangs(ts: seq<Tree>, d: nat) {
    forall i | 0 <= i < |ts| :: Depth(ts[i].row) == d && Hangs(ts[i].kids, d + 1)
  }

  predicate AtLeast(s: seq<Row>, d: nat) {
    forall i | 0 <= i < |s| :: Depth(s[i]) >= d
  }

  lemma {:induction false} FlatDepth(ts: seq<Tree>, d: nat)
    requires Hangs(ts, d)
    ensures AtLeast(Flat(ts), d)
    decreases ts
  {
    if ts != [] {
      FlatDepth(ts[0].kids, d + 1);
      FlatDepth(ts[1..], d);
    }
  }

  // ---- the visible prefix and the tally of what is cut ----

  function Take(s: seq<Row>, b: nat): seq<Row> {
    if b < |s| then s[..b] else s
  }

  function Cut(s: seq<Row>, b: nat): seq<Row> {
    if b < |s| then s[b..] else []
  }

  function Min(a: nat, b: nat): nat {
    if a < b then a else b
  }

  function MinDepth(s: seq<Row>, m: nat): nat {
    if s == [] then m else MinDepth(s[1..], Min(m, Depth(s[0])))
  }

  // Rows no deeper than all rows before them and than `m`: those with no cut ancestor.
  function Uncovered(s: seq<Row>, m: nat): nat {
    if s == [] then 0
    else (if Depth(s[0]) <= m then 1 else 0) + Uncovered(s[1..], Min(m, Depth(s[0])))
  }

  // The number of rows cut directly, not because their parent's subtree was never entered.
  function Frontier(s: seq<Row>): nat {
    if s == [] then 0 else Uncovered(s, Depth(s[0]))
  }

  lemma {:induction false} UncoveredAppend(s: seq<Row>, t: seq<Row>, m: nat)
    ensures Uncovered(s + t, m) == Uncovered(s, m) + Uncovered(t, MinDepth(s, m))
    decreases |s|
  {
    if s == [] {
      assert s + t == t;
    } else {
      UncoveredAppend(s[1..], t, Min(m, Depth(s[0])));
      assert (s + t)[1..] == s[1..] + t;
    }
  }

  lemma {:induction false} DeeperIsCovered(s: seq<Row>, m: nat)
    requires AtLeast(s, m + 1)
    ensures Uncovered(s, m) == 0 && MinDepth(s, m) == m
    decreases |s|
  {
    if s != [] {
      assert AtLeast(s[1..], m + 1);
      DeeperIsCovered(s[1..], m);
    }
  }

  lemma {:induction false} MinDepthAtLeast(s: seq<Row>, m: nat, d: nat)
    requires AtLeast(s, d) && m >= d
    ensures MinDepth(s, m) >= d
    decreases |s|
  {
    if s != [] {
      assert AtLeast(s[1..], d);
      MinDepthAtLeast(s[1..], Min(m, Depth(s[0])), d);
    }
  }

  lemma {:induction false} UncoveredBound(s: seq<Row>, m: nat)
    ensures Uncovered(s, m) <= |s|
    decreases |s|
  {
    if s != [] {
      UncoveredBound(s[1..], Min(m, Depth(s[0])));
    }
  }

  // The tally is a lower bound on what was cut, and it is zero only if nothing was.
  lemma FrontierBounds(s: seq<Row>)
    ensures Frontier(s) <= |s| && (Frontier(s) > 0 <==> s != [])
  {
    if s != [] {
      UncoveredBound(s, Depth(s[0]));
    }
  }

  // Appending one more subtree at the top depth of a cut list counts its root only.
  lemma FrontierAppendTree(s: seq<Row>, t: Tree, d: nat)
    requires AtLeast(s, d) && Hangs([t], d)
    ensures Frontier(s + Flat([t])) == Frontier(s) + 1
  {
    var sub := Flat([t]);
    FlatOne(t);
    assert Hangs([t][0].kids, d + 1);
    FlatDepth(t.kids, d + 1);
    DeeperIsCovered(Flat(t.kids), d);
    assert sub[1..] == Flat(t.kids) && sub[0] == t.row;
    if s == [] {
      assert s + sub == sub;
    } else {
      var m := Depth(s[0]);
      assert (s + sub)[0] == s[0];
      UncoveredAppend(s, sub, m);
      MinDepthAtLeast(s, m, d);
    }
  }

  // One step of a budgeted walk over siblings `ts[..i]` and then `ts[i]`.
  lemma CutStep(before: seq<Row>, t: Tree, d: nat, b: nat)
    requires AtLeast(before, d) && Hangs([t], d)
    ensures b <= |before| ==>
              && Take(before + Flat([t]), b) == Take(before, b)
              && Frontier(Cut(before + Flat([t]), b)) == Frontier(Cut(before, b)) + 1
    ensures b > |before| ==>
              && Take(before + Flat([t]), b) == before + [t.row] + Take(Flat(t.kids), b - |before| - 1)
              && Cut(before + Flat([t]), b) == Cut(Flat(t.kids), b - |before| - 1)
  {
    FlatOne(t);
    var all := before + Flat([t]);
    if b <= |before| {
      assert Take(all, b) == Take(before, b);
      assert Cut(all, b) == Cut(before, b) + Flat([t]);
      FrontierAppendTree(Cut(before, b), t, d);
    } else {
      assert all == before + [t.row] + Flat(t.kids);
    }
  }

  // A walk over whole listings one after the other, each starting at the top depth, cuts like a
  // walk over their concatenation.
  lemma {:induction false} CutAppend(s: seq<Row>, t: seq<Tree>, d: nat, b: nat)
    requires AtLeast(s, d) && Hangs(t, d)
    ensures Take(s + Flat(t), b) == Take(s, b) + Take(Flat(t), if b < |s| then 0 else b - |s|)
    ensures Frontier(Cut(s + Flat(t), b))
         == Frontier(Cut(s, b)) + Frontier(Cut(Flat(t), if b < |s| then 0 else b - |s|))
  {
    var b' := if b < |s| then 0 else b - |s|;
    var f := Flat(t);
    if b < |s| {
      assert Cut(s + f, b) == Cut(s, b) + f;
      assert Cut(f, 0) == f;
      FrontierAppendTrees(Cut(s, b), t, d);
      FrontierAppendTrees([], t, d);
      assert [] + f == f;
    } else {
      assert Cut(s + f, b) == Cut(f, b');
    }
  }

  lemma {:induction false} FrontierAppendTrees(s: seq<Row>, t: seq<Tree>, d: nat)
    requires AtLeast(s, d) && Hangs(t, d)
    ensures Frontier(s + Flat(t)) == Frontier(s) + |t|
    decreases |t|
  {
    if t == [] {
      assert s + Flat(t) == s;
    } else {
      var init, last := t[..|t| - 1], t[|t| - 1];
      assert t == init + [last];
      FlatAppend(init, [last]);
      FrontierAppendTrees(s, init, d);
      FlatDepth(init, d);
      FrontierAppendTree(s + Flat(init), last, d);
      assert s + Flat(t) == (s + Flat(init)) + Flat([last]);
    }
  }
}
