// How far the truncation tally of the forest renderers (crates/cgx-cli/src/forest.rs, FullWalk) falls
// short of the rows that were cut.
module Tally {
  import opened Graph
  import opened Rows
  import opened Budget

  // The trees of a listing in preorder: the i-th heads the i-th row.
  function Subtrees(ts: seq<Tree>): seq<Tree> {
    if ts == [] then [] else [ts[0]] + Subtrees(ts[0].kids) + Subtrees(ts[1..])
  }

  lemma {:induction false} SubtreeRows(ts: seq<Tree>)
    ensures |Subtrees(ts)| == |Flat(ts)|
    ensures forall i | 0 <= i < |Flat(ts)| :: Subtrees(ts)[i].row == Flat(ts)[i]
    decreases ts
  {
    if ts != [] {
      SubtreeRows(ts[0].kids);
      SubtreeRows(ts[1..]);
    }
  }

  // What a budget of `b` hides of them.
  function Hidden(ts: seq<Tree>, b: nat): seq<Tree> {
    Past(Subtrees(ts), b)
  }

  function KidCount(ts: seq<Tree>): nat {
    if ts == [] then 0 else |ts[0].kids| + KidCount(ts[1..])
  }

  lemma {:induction false} KidCountAppend(s: seq<Tree>, t: seq<Tree>)
    ensures KidCount(s + t) == KidCount(s) + KidCount(t)
    decreases |s|
  {
    if s == [] {
      assert s + t == t;
    } else {
      assert (s + t)[1..] == s[1..] + t;
      KidCountAppend(s[1..], t);
    }
  }

  lemma {:induction false} NoKids(ts: seq<Tree>)
    ensures KidCount(ts) == 0 <==> forall i | 0 <= i < |ts| :: ts[i].kids == []
    decreases |ts|
  {
    if ts != [] {
      NoKids(ts[1..]);
      assert forall i | 0 < i < |ts| :: ts[1..][i - 1] == ts[i];
      assert forall i | 0 <= i < |ts| - 1 :: ts[1..][i] == ts[i + 1];
    }
  }

  // Every row but those on top is some row's child.
  lemma {:induction false} AllKids(ts: seq<Tree>)
    ensures KidCount(Subtrees(ts)) + |ts| == |Flat(ts)|
    decreases ts
  {
    if ts != [] {
      var t, rest := ts[0], ts[1..];
      AllKids(t.kids);
      AllKids(rest);
      KidCountAppend([t] + Subtrees(t.kids), Subtrees(rest));
      KidCountAppend([t], Subtrees(t.kids));
      assert [t][1..] == [];
    }
  }

  function Past<T>(s: seq<T>, b: nat): seq<T> {
    if b < |s| then s[b..] else []
  }

  lemma SplitPast<T>(x: seq<T>, s: seq<T>, t: seq<T>, b: nat)
    requires |x| == 1 && b > 0
    ensures Past(x + (s + t), b) == Past(s, b - 1) + Past(t, Less(b, 1 + |s|))
  {
  }

  // What is hidden of a tree and of the trees behind it.
  lemma HiddenSplit(t: Tree, rest: seq<Tree>, b: nat)
    requires b > 0
    ensures Hidden([t] + rest, b) == Hidden(t.kids, b - 1) + Hidden(rest, Less(b, 1 + |Flat(t.kids)|))
  {
    var ts := [t] + rest;
    SubtreeRows(t.kids);
    assert ts[1..] == rest;
    assert Subtrees(ts) == [t] + (Subtrees(t.kids) + Subtrees(rest));
    SplitPast([t], Subtrees(t.kids), Subtrees(rest), b);
  }

  lemma CutSplit(t: Tree, rest: seq<Tree>, b: nat)
    requires b > 0
    ensures Flat([t] + rest) == Flat([t]) + Flat(rest) && |Flat([t])| == 1 + |Flat(t.kids)|
    ensures Cut(Flat([t]), b) == Cut(Flat(t.kids), b - 1)
    ensures |Cut(Flat([t]) + Flat(rest), b)| == |Cut(Flat(t.kids), b - 1)| + |Cut(Flat(rest), Less(b, |Flat([t])|))|
  {
    FlatOne(t);
    FlatAppend([t], rest);
    var own := Flat([t]);
    assert own[1..] == Flat(t.kids);
    assert b < |own| ==> own[b..] == Flat(t.kids)[b - 1..];
  }

  ghost predicate Adds(ts: seq<Tree>, b: nat) {
    Frontier(Cut(Flat(ts), b)) + KidCount(Hidden(ts, b)) == |Cut(Flat(ts), b)|
  }

  lemma AddsAll(ts: seq<Tree>, d: nat)
    requires Hangs(ts, d)
    ensures Adds(ts, 0)
  {
    SubtreeRows(ts);
    FrontierAppendTrees([], ts, d);
    assert [] + Flat(ts) == Flat(ts) == Cut(Flat(ts), 0);
    assert Hidden(ts, 0) == Subtrees(ts);
    AllKids(ts);
  }

  lemma AddsMore(t: Tree, rest: seq<Tree>, d: nat, b: nat)
    requires Hangs([t], d) && Hangs(rest, d) && b > 0
    requires Adds(t.kids, b - 1) && Adds(rest, Less(b, 1 + |Flat(t.kids)|))
    ensures Adds([t] + rest, b)
  {
    FlatDepth([t], d);
    CutSplit(t, rest, b);
    CutAppend(Flat([t]), rest, d, b);
    HiddenSplit(t, rest, b);
    KidCountAppend(Hidden(t.kids, b - 1), Hidden(rest, Less(b, 1 + |Flat(t.kids)|)));
  }

  // The tally and the children of hidden rows make up what was cut: a hidden row is tallied
  // unless the row it hangs under is hidden too.
  lemma {:induction false} TallyAndKids(ts: seq<Tree>, d: nat, b: nat)
    requires Hangs(ts, d)
    ensures Frontier(Cut(Flat(ts), b)) + KidCount(Hidden(ts, b)) == |Cut(Flat(ts), b)|
    decreases ts
  {
    if b == 0 {
      AddsAll(ts, d);
    } else if ts != [] {
      var t, rest := ts[0], ts[1..];
      TallyAndKids(t.kids, d + 1, b - 1);
      TallyAndKids(rest, d, Less(b, 1 + |Flat(t.kids)|));
      assert ts == [t] + rest;
      AddsMore(t, rest, d, b);
    }
  }

  ghost predicate HidesLeavesOnly(ss: seq<Section>, b: nat) {
    var hidden := Hidden(AllTrees(ss), b);
    forall i | 0 <= i < |hidden| :: hidden[i].kids == []
  }

  function RowsCut(ss: seq<Section>, b: nat): nat {
    Less(|Flat(AllTrees(ss))|, b)
  }

  // "N more" falls short by the children of hidden rows, so it is the number of rows cut exactly when
  // no hidden row has a child.
  lemma TallyExactly(ss: seq<Section>, b: nat)
    requires WellHung(ss)
    ensures After(ss, b).more + KidCount(Hidden(AllTrees(ss), b)) == RowsCut(ss, b)
    ensures After(ss, b).more == RowsCut(ss, b) <==> HidesLeavesOnly(ss, b)
  {
    ListingRows(ss);
    TallyAndKids(AllTrees(ss), 0, b);
    NoKids(Hidden(AllTrees(ss), b));
  }

  // ---- the same, read off the printed depths ----

  lemma {:induction false} UncoveredExactly(s: seq<Row>, m: nat)
    ensures Uncovered(s, m) == |s|
       <==> (forall i | 0 <= i < |s| :: Depth(s[i]) <= m)
            && forall i, j | 0 <= i < j < |s| :: Depth(s[j]) <= Depth(s[i])
    decreases |s|
  {
    if s != [] {
      var t, h := s[1..], Depth(s[0]);
      UncoveredBound(t, Min(m, h));
      UncoveredExactly(t, Min(m, h));
      assert forall i | 0 <= i < |t| :: t[i] == s[i + 1];
      assert forall i | 0 < i < |s| :: s[i] == t[i - 1];
    }
  }

  // For any listing: the tally is exact when no cut row is deeper than one cut before it.
  lemma TallyExactlyByDepth(ss: seq<Section>, b: nat)
    ensures var cut := Cut(Flat(AllTrees(ss)), b);
      && |cut| == RowsCut(ss, b)
      && (After(ss, b).more == |cut| <==> forall i, j | 0 <= i < j < |cut| :: Depth(cut[j]) <= Depth(cut[i]))
  {
    var cut := Cut(Flat(AllTrees(ss)), b);
    if cut != [] {
      UncoveredExactly(cut, Depth(cut[0]));
    }
  }

  // `b` leaves and then a tree with one leaf under it: past `b` rows there is one child.
  lemma {:induction false} LeavesAndOne(ts: seq<Tree>, b: nat)
    requires |ts| == b + 1 && (forall i | 0 <= i < b :: ts[i].kids == [])
    requires |ts[b].kids| == 1 && ts[b].kids[0].kids == []
    ensures |Flat(ts)| == b + 2 && KidCount(Hidden(ts, b)) == 1
    decreases b
  {
    SubtreeRows(ts);
    if b == 0 {
      var k := ts[0].kids[0];
      assert ts[0].kids == [k] && ts == [ts[0]];
      assert Subtrees([k]) == [k];
      assert Subtrees(ts) == [ts[0], k];
      assert Hidden(ts, b) == [ts[0]] + [k];
      KidCountAppend([ts[0]], [k]);
      assert [ts[0]][1..] == [] && [k][1..] == [];
    } else {
      LeavesAndOne(ts[1..], b - 1);
      assert Subtrees(ts) == [ts[0]] + Subtrees(ts[1..]);
      assert Hidden(ts, b) == Hidden(ts[1..], b - 1);
    }
  }
}
