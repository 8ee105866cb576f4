// When the prepared edges of a node are free of identical lines, decided by the edges as they are given
// (crates/cgx-cli/src/forest.rs, Forest::new).
module BucketTwins {
  import opened Graph
  import opened Forest
  import opened Sorting

  type Leq = (EdgeRec, EdgeRec) -> bool

  predicate Tied(leq: Leq, a: EdgeRec, b: EdgeRec) {
    leq(a, b) && leq(b, a)
  }

  // Among edges that tie, there are only identical ones between two identical edges.
  predicate TiedContiguous(s: seq<EdgeRec>, leq: Leq) {
    forall i, j, k | 0 <= i < j < k < |s| && Tied(leq, s[i], s[j]) && Same(s[i], s[k]) :: Same(s[i], s[j])
  }

  lemma SortedTwins(nodes: map<NodeId, NodeRecord>, s: seq<EdgeRec>)
    requires Sorted(s, ByTarget(nodes))
    ensures TwinsContiguous(s) <==> TiedContiguous(s, ByTarget(nodes))
  {
    var leq := ByTarget(nodes);
    if TiedContiguous(s, leq) {
      forall i, j, k | 0 <= i < j < k < |s| && Same(s[i], s[k]) ensures Same(s[i], s[j]) {
        assert leq(s[i], s[j]) && leq(s[j], s[k]);
        assert leq(s[j], s[i]);
      }
    }
  }

  // ---- positions among the ties of one edge ----

  // Where the m-th of the edges that tie with `x` stands.
  function At(s: seq<EdgeRec>, x: EdgeRec, leq: Leq, m: nat): (i: nat)
    requires m < |Ties(s, x, leq)|
    ensures i < |s| && s[i] == Ties(s, x, leq)[m] && Tied(leq, s[i], x)
  {
    if !Tied(leq, s[0], x) then 1 + At(s[1..], x, leq, m)
    else if m == 0 then 0
    else 1 + At(s[1..], x, leq, m - 1)
  }

  lemma {:induction false} AtRises(s: seq<EdgeRec>, x: EdgeRec, leq: Leq, m: nat, n: nat)
    requires m < n < |Ties(s, x, leq)|
    ensures At(s, x, leq, m) < At(s, x, leq, n)
    decreases |s|
  {
    if !Tied(leq, s[0], x) {
      AtRises(s[1..], x, leq, m, n);
    } else if m > 0 {
      AtRises(s[1..], x, leq, m - 1, n - 1);
    }
  }

  lemma {:induction false} AtHits(s: seq<EdgeRec>, x: EdgeRec, leq: Leq, i: nat) returns (m: nat)
    requires i < |s| && Tied(leq, s[i], x)
    ensures m < |Ties(s, x, leq)| && At(s, x, leq, m) == i
    decreases |s|
  {
    if i == 0 {
      m := 0;
    } else {
      m := AtHits(s[1..], x, leq, i - 1);
      m := if Tied(leq, s[0], x) then m + 1 else m;
    }
  }

  lemma TiesAreContiguous(s: seq<EdgeRec>, x: EdgeRec, leq: Leq)
    requires Preorder(leq) && TiedContiguous(s, leq)
    ensures TwinsContiguous(Ties(s, x, leq))
  {
    var t := Ties(s, x, leq);
    forall i, j, k | 0 <= i < j < k < |t| && Same(t[i], t[k]) ensures Same(t[i], t[j]) {
      AtRises(s, x, leq, i, j);
      AtRises(s, x, leq, j, k);
      var a, b, c := At(s, x, leq, i), At(s, x, leq, j), At(s, x, leq, k);
      assert Tied(leq, s[a], x) && Tied(leq, s[b], x);
      assert Tied(leq, s[a], s[b]) && Same(s[a], s[c]);
    }
  }

  // The ties of each edge decide for the whole list.
  lemma TiesDecide(s: seq<EdgeRec>, t: seq<EdgeRec>, nodes: map<NodeId, NodeRecord>)
    requires Preorder(ByTarget(nodes)) && TiedContiguous(s, ByTarget(nodes))
    requires forall x :: Ties(s, x, ByTarget(nodes)) == Ties(t, x, ByTarget(nodes))
    ensures TiedContiguous(t, ByTarget(nodes))
  {
    var leq := ByTarget(nodes);
    forall i, j, k | 0 <= i < j < k < |t| && Tied(leq, t[i], t[j]) && Same(t[i], t[k]) ensures Same(t[i], t[j]) {
      var x := t[i];
      assert Tied(leq, x, x) && Tied(leq, t[j], x) && Tied(leq, t[k], x);
      var a := AtHits(t, x, leq, i);
      var b := AtHits(t, x, leq, j);
      var c := AtHits(t, x, leq, k);
      if b <= a && a != b {
        AtRises(t, x, leq, b, a);
      }
      if c <= b && b != c {
        AtRises(t, x, leq, c, b);
      }
      TiesAreContiguous(s, x, leq);
    }
  }

  lemma SortKeepsContiguity(s: seq<EdgeRec>, nodes: map<NodeId, NodeRecord>)
    requires Preorder(ByTarget(nodes))
    ensures TiedContiguous(Sort(s, ByTarget(nodes)), ByTarget(nodes)) <==> TiedContiguous(s, ByTarget(nodes))
  {
    var leq := ByTarget(nodes);
    var t := Sort(s, leq);
    forall x ensures Ties(t, x, leq) == Ties(s, x, leq) {
      SortKeepsTies(s, x, leq);
    }
    if TiedContiguous(s, leq) {
      TiesDecide(s, t, nodes);
    } else if TiedContiguous(t, leq) {
      TiesDecide(t, s, nodes);
    }
  }

  // A node's prepared edges show no line twice exactly when, among its edges that the sort cannot
  // tell apart, identical ones are already next to each other.
  lemma BucketHasNoTwins(nodes: map<NodeId, NodeRecord>, edges: seq<EdgeRec>, n: NodeId)
    ensures NoTwins(Bucket(nodes, edges, n)) <==> TiedContiguous(OutEdges(edges, n), ByTarget(nodes))
  {
    var out := OutEdges(edges, n);
    var sorted := Sort(out, ByTarget(nodes));
    ByTargetIsPreorder(nodes);
    SortSorted(out, ByTarget(nodes));
    DedupIsComplete(sorted);
    SortedTwins(nodes, sorted);
    SortKeepsContiguity(out, nodes);
  }
}
