// The prepared adjacency of the forest renderer (crates/cgx-cli/src/forest.rs, Forest::new) and its
// full expansion, a budgeted depth-first walk with cycle cut-off.
module Forest {
  import opened Graph
  import opened Sorting
  import opened Strings

  datatype EdgeRec = EdgeRec(src: NodeId, dst: NodeId, condition: Condition, confidence: Confidence)

  // `children[src]` is never empty; `inDegree` counts the induced edges at each node.
  datatype Forest = Forest(nodes: map<NodeId, NodeRecord>, roots: seq<NodeId>,
                           children: map<NodeId, seq<EdgeRec>>, inDegree: map<NodeId, nat>)

  // ---- preparing the adjacency ----

  datatype SortKey = SortKey(fqn: string, file: string, line: nat)

  function KeyOf(nodes: map<NodeId, NodeRecord>, id: NodeId): SortKey {
    if id in nodes then SortKey(nodes[id].fqn, nodes[id].file, nodes[id].line) else SortKey("", "", 0)
  }

  predicate KeyLeq(a: SortKey, b: SortKey) {
    if a.fqn != b.fqn then StrLeq(a.fqn, b.fqn)
    else if a.file != b.file then StrLeq(a.file, b.file)
    else a.line <= b.line
  }

  function ByTarget(nodes: map<NodeId, NodeRecord>): (EdgeRec, EdgeRec) -> bool {
    (a: EdgeRec, b: EdgeRec) => KeyLeq(KeyOf(nodes, a.dst), KeyOf(nodes, b.dst))
  }

  function ById(nodes: map<NodeId, NodeRecord>): (NodeId, NodeId) -> bool {
    (a: NodeId, b: NodeId) => KeyLeq(KeyOf(nodes, a), KeyOf(nodes, b))
  }

  lemma KeyOrder(a: SortKey, b: SortKey, c: SortKey)
    ensures KeyLeq(a, b) || KeyLeq(b, a)
    ensures KeyLeq(a, b) && KeyLeq(b, c) ==> KeyLeq(a, c)
  {
    StrTotal(a.fqn, b.fqn);
    StrTotal(a.file, b.file);
    StrTotal(b.fqn, c.fqn);
    StrTotal(b.file, c.file);
    if StrLeq(a.fqn, b.fqn) && StrLeq(b.fqn, c.fqn) {
      StrTransitive(a.fqn, b.fqn, c.fqn);
    }
    if StrLeq(a.file, b.file) && StrLeq(b.file, c.file) {
      StrTransitive(a.file, b.file, c.file);
    }
  }

  lemma ByTargetIsPreorder(nodes: map<NodeId, NodeRecord>)
    ensures Preorder(ByTarget(nodes)) && Preorder(ById(nodes))
  {
    forall a: EdgeRec, b: EdgeRec, c: EdgeRec
      ensures ByTarget(nodes)(a, b) || ByTarget(nodes)(b, a)
      ensures ByTarget(nodes)(a, b) && ByTarget(nodes)(b, c) ==> ByTarget(nodes)(a, c)
    {
      KeyOrder(KeyOf(nodes, a.dst), KeyOf(nodes, b.dst), KeyOf(nodes, c.dst));
    }
    forall a: NodeId, b: NodeId, c: NodeId
      ensures ById(nodes)(a, b) || ById(nodes)(b, a)
      ensures ById(nodes)(a, b) && ById(nodes)(b, c) ==> ById(nodes)(a, c)
    {
      KeyOrder(KeyOf(nodes, a), KeyOf(nodes, b), KeyOf(nodes, c));
    }
  }

  // Renders identically: same target, condition and confidence.
  predicate Same(a: EdgeRec, b: EdgeRec) {
    a.dst == b.dst && a.condition == b.condition && a.confidence == b.confidence
  }

  // Collapses runs of identical neighbours to their first element.
  function Collapsed(s: seq<EdgeRec>): (r: seq<EdgeRec>)
    ensures s != [] ==> r != [] && r[0] == s[0]
    decreases |s|
  {
    if |s| <= 1 then s
    else if Same(s[1], s[0]) then Collapsed([s[0]] + s[2..])
    else [s[0]] + Collapsed(s[1..])
  }

  function OutEdges(edges: seq<EdgeRec>, src: NodeId): seq<EdgeRec> {
    if edges == [] then []
    else
      var init := OutEdges(edges[..|edges| - 1], src);
      if edges[|edges| - 1].src == src then init + [edges[|edges| - 1]] else init
  }

  function InCount(edges: seq<EdgeRec>, dst: NodeId): nat {
    if edges == [] then 0
    else InCount(edges[..|edges| - 1], dst) + if edges[|edges| - 1].dst == dst then 1 else 0
  }

  function Bucket(nodes: map<NodeId, NodeRecord>, edges: seq<EdgeRec>, src: NodeId): seq<EdgeRec> {
    Collapsed(Sort(OutEdges(edges, src), ByTarget(nodes)))
  }

  method New(nodes: map<NodeId, NodeRecord>, roots: seq<NodeId>, edges: seq<EdgeRec>) returns (f: Forest)
    ensures f.nodes == nodes && f.roots == roots
    ensures forall n :: n in f.children <==> OutEdges(edges, n) != []
    ensures forall n | n in f.children :: f.children[n] == Bucket(nodes, edges, n)
    ensures forall n :: n in f.inDegree <==> InCount(edges, n) > 0
    ensures forall n | n in f.inDegree :: f.inDegree[n] == InCount(edges, n)
  {
    var children: map<NodeId, seq<EdgeRec>> := map[];
    var inDegree: map<NodeId, nat> := map[];
    for i := 0 to |edges|
      invariant forall n :: n in children <==> OutEdges(edges[..i], n) != []
      invariant forall n | n in children :: children[n] == OutEdges(edges[..i], n)
      invariant forall n :: n in inDegree <==> InCount(edges[..i], n) > 0
      invariant forall n | n in inDegree :: inDegree[n] == InCount(edges[..i], n)
    {
      var e := edges[i];
      assert edges[..i + 1][..i] == edges[..i];
      children := children[e.src := (if e.src in children then children[e.src] else []) + [e]];
      inDegree := inDegree[e.dst := (if e.dst in inDegree then inDegree[e.dst] else 0) + 1];
    }
    assert edges[..|edges|] == edges;
    var todo := children.Keys;
    while todo != {}
      invariant todo <= children.Keys
      invariant forall n :: n in children <==> OutEdges(edges, n) != []
      invariant forall n | n in todo :: children[n] == OutEdges(edges, n)
      invariant forall n | n in children && n !in todo :: children[n] == Bucket(nodes, edges, n)
      decreases |todo|
    {
      var n :| n in todo;
      children := children[n := Collapsed(Sort(children[n], ByTarget(nodes)))];
      todo := todo - {n};
    }
    f := Forest(nodes, roots, children, inDegree);
  }

  // ---- what the render-layer dedupe achieves ----

  predicate NoAdjacentTwins(s: seq<EdgeRec>) {
    forall i | 0 <= i < |s| - 1 :: !Same(s[i], s[i + 1])
  }

  predicate NoTwins(s: seq<EdgeRec>) {
    forall i, j | 0 <= i < j < |s| :: !Same(s[i], s[j])
  }

  // Between two identical edges there are only identical ones.
  predicate TwinsContiguous(s: seq<EdgeRec>) {
    forall i, j, k | 0 <= i < j < k < |s| && Same(s[i], s[k]) :: Same(s[i], s[j])
  }

  lemma {:induction false} DedupKeepsKinds(s: seq<EdgeRec>, x: EdgeRec)
    ensures (exists e :: e in s && Same(e, x)) <==> (exists e :: e in Collapsed(s) && Same(e, x))
    ensures NoAdjacentTwins(Collapsed(s))
    ensures forall e | e in Collapsed(s) :: e in s
    decreases |s|
  {
    if |s| > 1 {
      if Same(s[1], s[0]) {
        var t := [s[0]] + s[2..];
        DedupKeepsKinds(t, x);
        assert forall e | e in t :: e in s;
        if e :| e in s && Same(e, x) {
          if e == s[1] {
            assert s[0] in t && Same(s[0], x);
          } else {
            assert e in t;
          }
        }
      } else {
        var t := s[1..];
        DedupKeepsKinds(t, x);
        assert s == [s[0]] + t;
        assert Collapsed(s) == [s[0]] + Collapsed(t);
        assert forall e | e in Collapsed(t) :: e in Collapsed(s);
      }
    }
  }

  lemma NoLaterTwin(s: seq<EdgeRec>, k: nat)
    requires TwinsContiguous(s) && 0 < k < |s| && !Same(s[1], s[0])
    ensures !Same(s[0], s[k])
  {
    if k > 1 {
      assert !Same(s[0], s[1]);
    }
  }

  lemma {:induction false} DedupContiguous(s: seq<EdgeRec>)
    requires TwinsContiguous(s)
    ensures NoTwins(Collapsed(s))
    decreases |s|
  {
    if |s| > 1 {
      if Same(s[1], s[0]) {
        var t := [s[0]] + s[2..];
        assert forall i | 0 <= i < |t| :: t[i] == if i == 0 then s[0] else s[i + 1];
        DedupContiguous(t);
      } else {
        var t := s[1..];
        DedupContiguous(t);
        var d := Collapsed(t);
        forall n | 0 <= n < |d| ensures !Same(s[0], d[n]) {
          DedupKeepsKinds(t, s[0]);
          assert d[n] in t;
          var k :| 0 <= k < |t| && t[k] == d[n];
          NoLaterTwin(s, k + 1);
        }
        assert Collapsed(s) == [s[0]] + d;
      }
    }
  }

  // Only adjacent duplicates go: a bucket is free of duplicates after `dedup_by` exactly when
  // identical edges stood next to each other before it.
  lemma {:induction false} DedupIsComplete(s: seq<EdgeRec>)
    ensures NoTwins(Collapsed(s)) <==> TwinsContiguous(s)
    decreases |s|
  {
    if TwinsContiguous(s) {
      DedupContiguous(s);
    } else {
      var i, j, k :| 0 <= i < j < k < |s| && Same(s[i], s[k]) && !Same(s[i], s[j]);
      DedupIncomplete(s, i, j, k);
    }
  }

  lemma {:induction false} DedupIncomplete(s: seq<EdgeRec>, i: nat, j: nat, k: nat)
    requires i < j < k < |s| && Same(s[i], s[k]) && !Same(s[i], s[j])
    ensures !NoTwins(Collapsed(s))
    decreases |s|
  {
    if Same(s[1], s[0]) {
      var t := [s[0]] + s[2..];
      assert t[k - 1] == s[k] && t[j - 1] == s[j] && (i >= 2 ==> t[i - 1] == s[i]);
      DedupIncomplete(t, if i <= 1 then 0 else i - 1, j - 1, k - 1);
    } else if i == 0 {
      LaterTwin(s, k);
    } else {
      var t := s[1..];
      assert t[i - 1] == s[i] && t[j - 1] == s[j] && t[k - 1] == s[k];
      DedupIncomplete(t, i - 1, j - 1, k - 1);
      TwinsBehind(s[0], Collapsed(t));
    }
  }

  lemma TwinsBehind(x: EdgeRec, s: seq<EdgeRec>)
    requires !NoTwins(s)
    ensures !NoTwins([x] + s)
  {
    var a, b :| 0 <= a < b < |s| && Same(s[a], s[b]);
    Twins([x] + s, a + 1, b + 1);
  }

  lemma LaterTwin(s: seq<EdgeRec>, k: nat)
    requires 0 < k < |s| && Same(s[0], s[k]) && !Same(s[1], s[0])
    ensures !NoTwins(Collapsed(s))
  {
    var t := s[1..];
    var d := Collapsed(t);
    assert t[k - 1] in t && Same(t[k - 1], s[0]);
    DedupKeepsKinds(t, s[0]);
    var e :| e in d && Same(e, s[0]);
    var n :| 0 <= n < |d| && d[n] == e;
    assert Collapsed(s) == [s[0]] + d;
    Twins(Collapsed(s), 0, n + 1);
  }

  lemma Twins(s: seq<EdgeRec>, i: nat, j: nat)
    requires i < j < |s| && Same(s[i], s[j])
    ensures !NoTwins(s)
  {
  }

  lemma SortOfTies(a: EdgeRec, b: EdgeRec, leq: (EdgeRec, EdgeRec) -> bool)
    requires leq(a, b) && leq(b, a) && leq(a, a)
    ensures Sort([a, b, a], leq) == [a, b, a]
  {
    assert [a, b, a][1..] == [b, a] && [b, a][1..] == [a] && [a][1..] == [];
    assert Sort([a], leq) == [a];
    assert Sort([b, a], leq) == Insert(b, [a], leq) == [b, a];
    assert Insert(a, [b, a], leq) == [a, b, a];
  }

  lemma OutEdgesOfThree(a: EdgeRec, b: EdgeRec)
    requires a.src == b.src
    ensures OutEdges([a, b, a], a.src) == [a, b, a]
  {
    assert [a, b, a][..2] == [a, b] && [a, b][..1] == [a] && [a][..0] == [];
    assert OutEdges([a], a.src) == [a];
    assert OutEdges([a, b], a.src) == [a, b];
  }

  lemma DedupOfThree(a: EdgeRec, b: EdgeRec)
    requires !Same(a, b) && !Same(b, a)
    ensures Collapsed([a, b, a]) == [a, b, a]
  {
    assert [a, b, a][1..] == [b, a] && [b, a][1..] == [a];
    assert Collapsed([b, a]) == [b, a];
  }

  // Sorting by target alone leaves `if, loop, if` to one callee as it is: two identical lines.
  lemma DedupCounterexample(nodes: map<NodeId, NodeRecord>)
    ensures var a := EdgeRec(0, 1, Conditional, Certain);
            var b := EdgeRec(0, 1, Loop, Certain);
            Bucket(nodes, [a, b, a], 0) == [a, b, a] && !NoTwins(Bucket(nodes, [a, b, a], 0))
  {
    var a := EdgeRec(0, 1, Conditional, Certain);
    var b := EdgeRec(0, 1, Loop, Certain);
    KeyOrder(KeyOf(nodes, 1), KeyOf(nodes, 1), KeyOf(nodes, 1));
    SortOfTies(a, b, ByTarget(nodes));
    OutEdgesOfThree(a, b);
    DedupOfThree(a, b);
    Twins([a, b, a], 0, 2);
  }
}
