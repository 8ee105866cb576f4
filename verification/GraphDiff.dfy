// The diff of two graphs (crates/cgx-diff/src/diff.rs): a patch from one side's identity map to the
// other's.
module GraphDiff {
  import opened Prelude
  import opened Graph
  import opened CodeGraph
  import opened Sequences
  import opened Sorting
  import opened Strings

  datatype EdgeIdentity = EdgeIdentity(
    srcFqn: string, dstFqn: string, kind: EdgeKind, file: string, ordinal: Option<nat>)

  // The attributes a diff compares.
  datatype Attributes = Attributes(
    condition: Condition, confidence: Confidence, tier: nat, candidateGroup: Option<nat>, cfgCondition: Option<string>)

  // `other` stands for the fields no diff reads.
  datatype Edge =
    Edge(src: NodeId, dst: NodeId, kind: EdgeKind, stmtIndex: Option<nat>, attrs: Attributes, other: string)

  datatype Symbol = Symbol(fqn: string, file: string, lineStart: nat, other: string)

  datatype LinkedGraph = LinkedGraph(nodes: seq<Symbol>, edges: seq<Edge>)

  datatype Placed = Placed(record: Edge, line: nat)

  type EdgeIndex = map<EdgeIdentity, Placed>
  type NodeIndex = map<string, Symbol>

  datatype EdgeChanges = EdgeChanges(
    condition: bool, confidence: bool, tier: bool, candidateGroup: bool, cfgCondition: bool)

  datatype DiffEdge = DiffEdge(identity: EdgeIdentity, record: Edge, line: nat)
  datatype ChangedEdge = ChangedEdge(identity: EdgeIdentity, base: Edge, head: Edge, changes: EdgeChanges)
  datatype DiffNode = DiffNode(fqn: string, record: Symbol)

  datatype Diff = Diff(addedEdges: seq<DiffEdge>, removedEdges: seq<DiffEdge>, changedEdges: seq<ChangedEdge>,
                       addedNodes: seq<DiffNode>, removedNodes: seq<DiffNode>)

  // ---- the order of identities ----

  function KindRank(k: EdgeKind): nat {
    match k
    case Calls => 0
    case CallsVirtual => 1
    case CallsClosure => 2
    case CallsCallback => 3
    case CallsAsync => 4
    case CallsIndirect => 5
    case Spawns => 6
    case Contains => 7
    case Imports => 8
    case DerivesFrom => 9
    case Overrides => 10
    case Implements => 11
    case Inherits => 12
    case References => 13
    case Instantiates => 14
    case Throws => 15
    case Catches => 16
    case ReadsField => 17
    case WritesField => 18
  }

  function OrdinalRank(o: Option<nat>): nat {
    if o.Some? then o.value + 1 else 0
  }

  // Field by field, in declaration order.
  predicate IdLeq(a: EdgeIdentity, b: EdgeIdentity) {
    if a.srcFqn != b.srcFqn then StrLeq(a.srcFqn, b.srcFqn)
    else if a.dstFqn != b.dstFqn then StrLeq(a.dstFqn, b.dstFqn)
    else if a.kind != b.kind then KindRank(a.kind) <= KindRank(b.kind)
    else if a.file != b.file then StrLeq(a.file, b.file)
    else OrdinalRank(a.ordinal) <= OrdinalRank(b.ordinal)
  }

  lemma StrLaws(a: string, b: string, c: string)
    ensures StrLeq(a, b) || StrLeq(b, a)
    ensures StrLeq(a, b) && StrLeq(b, a) ==> a == b
    ensures StrLeq(a, b) && StrLeq(b, c) ==> StrLeq(a, c)
  {
    StrTotal(a, b);
    if StrLeq(a, b) && StrLeq(b, c) {
      StrTransitive(a, b, c);
    }
  }

  lemma KindRankInjective(a: EdgeKind, b: EdgeKind)
    requires KindRank(a) == KindRank(b)
    ensures a == b
  {
  }

  lemma IdTotal(a: EdgeIdentity, b: EdgeIdentity)
    ensures IdLeq(a, b) || IdLeq(b, a)
    ensures IdLeq(a, b) && IdLeq(b, a) ==> a == b
  {
    StrTotal(a.srcFqn, b.srcFqn);
    StrTotal(a.dstFqn, b.dstFqn);
    StrTotal(a.file, b.file);
    if KindRank(a.kind) == KindRank(b.kind) {
      KindRankInjective(a.kind, b.kind);
    }
  }

  lemma IdTransitive(a: EdgeIdentity, b: EdgeIdentity, c: EdgeIdentity)
    requires IdLeq(a, b) && IdLeq(b, c)
    ensures IdLeq(a, c)
  {
    if a.srcFqn != b.srcFqn || b.srcFqn != c.srcFqn {
      StrTotal(a.srcFqn, b.srcFqn);
      StrLaws(a.srcFqn, b.srcFqn, c.srcFqn);
    } else if a.dstFqn != b.dstFqn || b.dstFqn != c.dstFqn {
      StrTotal(a.dstFqn, b.dstFqn);
      StrLaws(a.dstFqn, b.dstFqn, c.dstFqn);
    } else if a.kind != b.kind || b.kind != c.kind {
      if KindRank(a.kind) == KindRank(c.kind) {
        assert KindRank(a.kind) == KindRank(b.kind);
        KindRankInjective(a.kind, b.kind);
        KindRankInjective(a.kind, c.kind);
      }
    } else if a.file != b.file || b.file != c.file {
      StrTotal(a.file, b.file);
      StrLaws(a.file, b.file, c.file);
    }
  }

  lemma IdOrder()
    ensures Preorder(IdLeq) && Antisymmetric(IdLeq)
  {
    forall a, b, c
      ensures IdLeq(a, b) || IdLeq(b, a)
      ensures IdLeq(a, b) && IdLeq(b, a) ==> a == b
      ensures IdLeq(a, b) && IdLeq(b, c) ==> IdLeq(a, c)
    {
      IdTotal(a, b);
      if IdLeq(a, b) && IdLeq(b, c) {
        IdTransitive(a, b, c);
      }
    }
  }

  lemma NameOrder()
    ensures Preorder(StrLeq) && Antisymmetric(StrLeq)
  {
    forall a, b, c
      ensures StrLeq(a, b) || StrLeq(b, a)
      ensures StrLeq(a, b) && StrLeq(b, a) ==> a == b
      ensures StrLeq(a, b) && StrLeq(b, c) ==> StrLeq(a, c)
    {
      StrLaws(a, b, c);
    }
  }

  // ---- indexing ----

  // An edge's identity; none if an endpoint is out of range.
  function IdentityOf(g: LinkedGraph, e: Edge): Option<(EdgeIdentity, nat)> {
    if e.src < |g.nodes| && e.dst < |g.nodes| then
      var src, dst := g.nodes[e.src], g.nodes[e.dst];
      Some((EdgeIdentity(src.fqn, dst.fqn, e.kind, src.file, e.stmtIndex), src.lineStart))
    else None
  }

  // The last edge of each identity.
  function EdgesIndexed(g: LinkedGraph, es: seq<Edge>): EdgeIndex {
    if es == [] then map[]
    else
      var was, e := EdgesIndexed(g, es[..|es| - 1]), es[|es| - 1];
      match IdentityOf(g, e)
      case None => was
      case Some(i) => was[i.0 := Placed(e, i.1)]
  }

  function NodesIndexed(ns: seq<Symbol>): NodeIndex {
    if ns == [] then map[] else NodesIndexed(ns[..|ns| - 1])[ns[|ns| - 1].fqn := ns[|ns| - 1]]
  }

  method IndexEdges(g: LinkedGraph) returns (m: EdgeIndex)
    ensures m == EdgesIndexed(g, g.edges)
  {
    m := map[];
    for i := 0 to |g.edges|
      invariant m == EdgesIndexed(g, g.edges[..i])
    {
      assert g.edges[..i + 1][..i] == g.edges[..i];
      var id := IdentityOf(g, g.edges[i]);
      if id.Some? {
        m := m[id.value.0 := Placed(g.edges[i], id.value.1)];
      }
    }
    assert g.edges[..|g.edges|] == g.edges;
  }

  method IndexNodes(g: LinkedGraph) returns (m: NodeIndex)
    ensures m == NodesIndexed(g.nodes)
  {
    m := map[];
    for i := 0 to |g.nodes|
      invariant m == NodesIndexed(g.nodes[..i])
    {
      assert g.nodes[..i + 1][..i] == g.nodes[..i];
      m := m[g.nodes[i].fqn := g.nodes[i]];
    }
    assert g.nodes[..|g.nodes|] == g.nodes;
  }

  // ---- classifying ----

  function ClassifyChange(base: Edge, head: Edge): (c: EdgeChanges)
    ensures Any(c) <==> base.attrs != head.attrs
  {
    var a, b := base.attrs, head.attrs;
    EdgeChanges(a.condition != b.condition, a.confidence != b.confidence, a.tier != b.tier,
                a.candidateGroup != b.candidateGroup, a.cfgCondition != b.cfgCondition)
  }

  predicate Any(c: EdgeChanges) {
    c.condition || c.confidence || c.tier || c.candidateGroup || c.cfgCondition
  }

  // What each identity contributes to each list, given both sides' indexes.
  function OnlyIn(here: EdgeIndex, there: EdgeIndex, id: EdgeIdentity): seq<DiffEdge> {
    if id in here && id !in there then [DiffEdge(id, here[id].record, here[id].line)] else []
  }

  function ChangedIn(base: EdgeIndex, head: EdgeIndex, id: EdgeIdentity): seq<ChangedEdge> {
    if id in base && id in head && base[id].record.attrs != head[id].record.attrs then
      [ChangedEdge(id, base[id].record, head[id].record, ClassifyChange(base[id].record, head[id].record))]
    else []
  }

  function NodeOnlyIn(here: NodeIndex, there: NodeIndex, fqn: string): seq<DiffNode> {
    if fqn in here && fqn !in there then [DiffNode(fqn, here[fqn])] else []
  }

  function OnlyInFn(here: EdgeIndex, there: EdgeIndex): EdgeIdentity -> seq<DiffEdge> {
    (id: EdgeIdentity) => OnlyIn(here, there, id)
  }

  function ChangedInFn(base: EdgeIndex, head: EdgeIndex): EdgeIdentity -> seq<ChangedEdge> {
    (id: EdgeIdentity) => ChangedIn(base, head, id)
  }

  function NodeOnlyInFn(here: NodeIndex, there: NodeIndex): string -> seq<DiffNode> {
    (fqn: string) => NodeOnlyIn(here, there, fqn)
  }

  datatype Indexes = Indexes(edges: EdgeIndex, nodes: NodeIndex)

  function IndexOf(g: LinkedGraph): Indexes {
    Indexes(EdgesIndexed(g, g.edges), NodesIndexed(g.nodes))
  }

  // The keys of one side in order.
  datatype Keys = Keys(ids: seq<EdgeIdentity>, fqns: seq<string>)

  ghost predicate KeysOf(ks: Keys, x: Indexes) {
    ListsKeys(ks.ids, x.edges.Keys, IdLeq) && ListsKeys(ks.fqns, x.nodes.Keys, StrLeq)
  }

  // The diff of two indexes, each walked in key order.
  function DiffOf(base: Indexes, head: Indexes, bk: Keys, hk: Keys): Diff {
    Diff(Each(hk.ids, OnlyInFn(head.edges, base.edges)), Each(bk.ids, OnlyInFn(base.edges, head.edges)),
         Each(hk.ids, ChangedInFn(base.edges, head.edges)), Each(hk.fqns, NodeOnlyInFn(head.nodes, base.nodes)),
         Each(bk.fqns, NodeOnlyInFn(base.nodes, head.nodes)))
  }

  method DiffEdges(base: EdgeIndex, head: EdgeIndex, bk: seq<EdgeIdentity>, hk: seq<EdgeIdentity>)
    returns (added: seq<DiffEdge>, removed: seq<DiffEdge>, changed: seq<ChangedEdge>)
    requires (forall k | k in bk :: k in base) && forall k | k in hk :: k in head
    ensures added == Each(hk, OnlyInFn(head, base)) && removed == Each(bk, OnlyInFn(base, head))
    ensures changed == Each(hk, ChangedInFn(base, head))
  {
    added, removed, changed := [], [], [];
    for i := 0 to |hk|
      invariant added == Each(hk[..i], OnlyInFn(head, base)) && changed == Each(hk[..i], ChangedInFn(base, head))
    {
      assert hk[..i + 1][..i] == hk[..i];
      var id := hk[i];
      if id !in base {
        added := added + [DiffEdge(id, head[id].record, head[id].line)];
      } else {
        var changes := ClassifyChange(base[id].record, head[id].record);
        if Any(changes) {
          changed := changed + [ChangedEdge(id, base[id].record, head[id].record, changes)];
        }
      }
    }
    assert hk[..|hk|] == hk;
    for i := 0 to |bk|
      invariant removed == Each(bk[..i], OnlyInFn(base, head))
    {
      assert bk[..i + 1][..i] == bk[..i];
      var id := bk[i];
      if id !in head {
        removed := removed + [DiffEdge(id, base[id].record, base[id].line)];
      }
    }
    assert bk[..|bk|] == bk;
  }

  method DiffNodes(here: NodeIndex, there: NodeIndex, ks: seq<string>) returns (nodes: seq<DiffNode>)
    requires forall k | k in ks :: k in here
    ensures nodes == Each(ks, NodeOnlyInFn(here, there))
  {
    nodes := [];
    for i := 0 to |ks|
      invariant nodes == Each(ks[..i], NodeOnlyInFn(here, there))
    {
      assert ks[..i + 1][..i] == ks[..i];
      if ks[i] !in there {
        nodes := nodes + [DiffNode(ks[i], here[ks[i]])];
      }
    }
    assert ks[..|ks|] == ks;
  }

  // The diff of two indexed graphs, their keys walked in order.
  ghost predicate IsDiff(d: Diff, base: Indexes, head: Indexes) {
    exists bk, hk | KeysOf(bk, base) && KeysOf(hk, head) :: d == DiffOf(base, head, bk, hk)
  }

  method DiffGraphs(base: LinkedGraph, head: LinkedGraph) returns (d: Diff)
    ensures IsDiff(d, IndexOf(base), IndexOf(head))
  {
    IdOrder();
    NameOrder();
    var be := IndexEdges(base);
    var he := IndexEdges(head);
    var bIds := InOrder(be.Keys, IdLeq);
    var hIds := InOrder(he.Keys, IdLeq);
    var added, removed, changed := DiffEdges(be, he, bIds, hIds);
    var bn := IndexNodes(base);
    var hn := IndexNodes(head);
    var bNames := InOrder(bn.Keys, StrLeq);
    var hNames := InOrder(hn.Keys, StrLeq);
    var addedNodes := DiffNodes(hn, bn, hNames);
    var removedNodes := DiffNodes(bn, hn, bNames);
    d := Diff(added, removed, changed, addedNodes, removedNodes);
    assert d == DiffOf(IndexOf(base), IndexOf(head), Keys(bIds, bNames), Keys(hIds, hNames));
  }
}
