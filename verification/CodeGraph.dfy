// The in-memory graph CQL runs over and its adjacency primitive (crates/cgx-query/src/view.rs,
// filter.rs and crates/cgx-core/src/edge.rs).
module CodeGraph {
  import opened Prelude
  import opened Graph
  import opened Ast
  import opened SymbolPatterns

  datatype EdgeKind =
    | Calls | CallsVirtual | CallsClosure | CallsCallback | CallsAsync | CallsIndirect | Spawns
    | Contains | Imports | DerivesFrom | Overrides | Implements | Inherits | References | Instantiates
    | Throws | Catches | ReadsField | WritesField

  predicate IsCall(k: EdgeKind) {
    k.Calls? || k.CallsVirtual? || k.CallsClosure? || k.CallsCallback? || k.CallsAsync? || k.CallsIndirect?
    || k.Spawns?
  }

  type EdgeId = nat

  datatype EdgeRecord =
    EdgeRecord(src: NodeId, dst: NodeId, kind: EdgeKind, condition: Condition, confidence: Confidence)

  // Ids are positions in the two tables.
  datatype GraphView = GraphView(nodes: seq<NodeRecord>, edges: seq<EdgeRecord>)

  // The direction of a walk.
  type Direction = Arrow

  function Reverse(d: Direction): Direction {
    if d == Forward then Backward else Forward
  }

  datatype ConditionFilter = AnyCondition | Only(c: Condition)

  datatype EdgeFilter =
    EdgeFilter(minConfidence: Confidence, condition: ConditionFilter, kinds: Option<seq<EdgeKind>>)

  predicate Admits(f: EdgeFilter, e: EdgeRecord) {
    && (match f.kinds case Some(ks) => e.kind in ks case None => IsCall(e.kind))
    && Rank(e.confidence) >= Rank(f.minConfidence)
    && (f.condition == AnyCondition || f.condition == Only(e.condition))
  }

  // The numbers below `n` with `p`, ascending.
  function Select(n: nat, p: nat -> bool): (r: seq<nat>)
    ensures forall i | 0 <= i < |r| :: r[i] < n && p(r[i])
    ensures forall i, j | 0 <= i < j < |r| :: r[i] < r[j]
    ensures forall x: nat :: x in r <==> x < n && p(x)
  {
    if n == 0 then [] else Select(n - 1, p) + if p(n - 1) then [n - 1] else []
  }

  function Near(e: EdgeRecord, d: Direction): NodeId {
    if d == Forward then e.src else e.dst
  }

  function Far(e: EdgeRecord, d: Direction): NodeId {
    if d == Forward then e.dst else e.src
  }

  // The admitted edges at `n` in direction `d`, in edge order.
  function Neighbors(g: GraphView, n: NodeId, d: Direction, f: EdgeFilter): seq<EdgeId> {
    Select(|g.edges|, (e: nat) => e < |g.edges| && Near(g.edges[e], d) == n && Admits(f, g.edges[e]))
  }

  function ResolveSymbol(g: GraphView, p: SymbolPattern): seq<NodeId> {
    Select(|g.nodes|, (n: nat) => n < |g.nodes| && MatchesFqn(p, g.nodes[n].fqn))
  }

  function NodesOfKind(g: GraphView, kinds: seq<SymbolKind>): seq<NodeId> {
    Select(|g.nodes|, (n: nat) => n < |g.nodes| && g.nodes[n].kind in kinds)
  }

  function AllNodes(g: GraphView): seq<NodeId> {
    Select(|g.nodes|, (n: nat) => true)
  }
}
