// What a plan's constraints mean at run time (crates/cgx-cql/src/eval.rs, anchor_ids, peer_matches,
// peer_goal_ids).
module Evaluation {
  import opened Prelude
  import Values
  import opened Graph
  import opened Ast
  import opened CodeGraph
  import opened SymbolPatterns
  import opened Lowering
  import opened BindingStream

  // ---- constraints at run time ----

  function FieldValue(n: NodeRecord, f: NodeField): Value {
    match f
    case FqnField => Values.Str(n.fqn)
    case FileField => Values.Str(n.file)
    case LineField => Values.Int(n.line)
    case KindField => Values.Str(KindToken(n.kind))
  }

  function KindToken(k: SymbolKind): (t: string)
    ensures SymbolKindOf(t) == Success(k)
  {
    match k
    case Function => "function"
    case Method => "method"
    case Type => "type"
    case Field => "field"
    case Variable => "variable"
    case Module => "module"
    case Constant => "constant"
    case Macro => "macro"
    case Lambda => "lambda"
    case Entrypoint => "entrypoint"
  }

  // Equality with Int and Float mixed. Line numbers, the only integers compared here, are exact as
  // floats.
  predicate ValuesEqual(a: Value, b: Value) {
    if a.Int? && b.Float? then b.f == Values.Finite(a.n as real)
    else if a.Float? && b.Int? then a.f == Values.Finite(b.n as real)
    else a == b
  }

  predicate PropHolds(p: NodeProp, n: NodeRecord) {
    if p.field == FqnField then p.value.Str? && MatchesFqn(NamePattern(p.value.text), n.fqn)
    else ValuesEqual(FieldValue(n, p.field), p.value)
  }

  // A constraint read as a test: any of the kinds, and every property.
  predicate Meets(c: Constraint, n: NodeRecord) {
    (c.kinds.Some? ==> n.kind in c.kinds.value)
    && forall i | 0 <= i < |c.props| :: PropHolds(c.props[i], n)
  }

  predicate PeerMatches(g: GraphView, plan: PatternPlan, peer: NodeId) {
    peer < |g.nodes| && Meets(Constraint(plan.peerProps, plan.peerKinds), g.nodes[peer])
  }

  function AnchorIds(g: GraphView, a: AnchorSet): seq<NodeId> {
    match a
    case Symbol(p) => ResolveSymbol(g, p)
    case Kinds(ks) => NodesOfKind(g, ks)
    case All => AllNodes(g)
  }

  // The name of a constrained peer alone decides its goals; otherwise all its constraints do.
  function Goals(g: GraphView, plan: PatternPlan): seq<NodeId> {
    if HasName(plan.peerProps) && FirstName(plan.peerProps).Str? then
      ResolveSymbol(g, NamePattern(FirstName(plan.peerProps).text))
    else Select(|g.nodes|, (n: nat) => PeerMatches(g, plan, n))
  }

  function EnvOf(g: GraphView, plan: PatternPlan): Env {
    Env((n: NodeId) => PeerMatches(g, plan, n), AnchorIds(g, plan.anchor), Goals(g, plan))
  }
}
