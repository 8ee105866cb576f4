// The binding stream and the expansion of one pattern over it (crates/cgx-cql/src/eval.rs,
// expand_pattern, expand_single_hop, expand_var_length, upgrade_truncation;
// crates/cgx-query/src/walk.rs, reachable_within).
module BindingStream {
  import opened Prelude
  import opened Graph
  import Values
  import opened Ast
  import opened CodeGraph
  import opened Lowering

  const DEFAULT_VAR_LENGTH_DEPTH: nat := 8
  const DEFAULT_VAR_LENGTH_ROWS: nat := 1024

  type Binding = map<string, Value>

  datatype TruncationReason = PathCap | StepBudget

  // What a plan's constraints amount to over a graph: the test on peers, the anchors of a step that
  // is not joined, and the goals of a variable-length walk.
  datatype Env = Env(test: NodeId -> bool, anchors: seq<NodeId>, goals: seq<NodeId>)

  // The anchors of a step: its own set, or the node its join variable is bound to.
  function Anchors(plan: PatternPlan, env: Env, base: Binding): seq<NodeId> {
    match plan.anchorBoundVar
    case None => env.anchors
    case Some(v) => if v in base && base[v].Node? then [base[v].node] else []
  }

  // ---- one hop ----

  datatype Hop = Hop(anchor: NodeId, edge: EdgeId, peer: NodeId)

  function BindNode(b: Binding, v: Option<string>, n: NodeId): Binding {
    if v.Some? then b[v.value := Values.Node(n)] else b
  }

  function BindEnds(b: Binding, plan: PatternPlan, anchor: NodeId, peer: NodeId): Binding {
    BindNode(BindNode(b, plan.anchorVar, anchor), plan.peerVar, peer)
  }

  function BindHop(b: Binding, plan: PatternPlan, h: Hop): Binding {
    var b1 := BindEnds(b, plan, h.anchor, h.peer);
    var b2 := if plan.relVar.Some? then b1[plan.relVar.value := Values.Edge(h.edge)] else b1;
    if plan.pathVar.Some? then b2[plan.pathVar.value := Values.Path([h.anchor, h.peer], [h.edge])] else b2
  }

  function HopsOver(g: GraphView, plan: PatternPlan, env: Env, anchor: NodeId, es: seq<EdgeId>): seq<Hop>
    requires forall i | 0 <= i < |es| :: es[i] < |g.edges|
  {
    if es == [] then []
    else
      var e := es[|es| - 1];
      var peer := Far(g.edges[e], plan.direction);
      HopsOver(g, plan, env, anchor, es[..|es| - 1])
      + if env.test(peer) then [Hop(anchor, e, peer)] else []
  }

  function HopsAt(g: GraphView, plan: PatternPlan, env: Env, anchor: NodeId): seq<Hop> {
    HopsOver(g, plan, env, anchor, Neighbors(g, anchor, plan.direction, plan.filter))
  }

  function HopRows(plan: PatternPlan, base: Binding, hops: seq<Hop>): seq<Binding> {
    seq(|hops|, i requires 0 <= i < |hops| => BindHop(base, plan, hops[i]))
  }

  // ---- variable length, without a path binding ----

  function EffectiveMaxDepth(max: Option<nat>): nat {
    if max.Some? then max.value else DEFAULT_VAR_LENGTH_DEPTH
  }

  predicate StepTo(g: GraphView, d: Direction, f: EdgeFilter, a: NodeId, b: NodeId) {
    b < |g.nodes| && exists e | 0 <= e < |g.edges| ::
      Near(g.edges[e], d) == a && Far(g.edges[e], d) == b && Admits(f, g.edges[e])
  }

  // Reached by exactly `k` admitted edges.
  predicate ReachedIn(g: GraphView, d: Direction, f: EdgeFilter, start: NodeId, n: NodeId, k: nat)
    decreases k
  {
    if k == 0 then n == start
    else exists m | 0 <= m < |g.nodes| :: ReachedIn(g, d, f, start, m, k - 1) && StepTo(g, d, f, m, n)
  }

  predicate ReachedBetween(g: GraphView, d: Direction, f: EdgeFilter, start: NodeId, n: NodeId, min: nat, max: nat) {
    exists k | 1 <= k <= max && min <= k :: ReachedIn(g, d, f, start, n, k)
  }

  // Every node some walk of a permitted length reaches, ascending.
  function ReachableWithin(g: GraphView, d: Direction, f: EdgeFilter, start: NodeId, min: nat, max: nat): seq<NodeId> {
    Select(|g.nodes|, (n: nat) => ReachedBetween(g, d, f, start, n, min, max))
  }

  function PeersOver(env: Env, reached: seq<NodeId>): seq<NodeId> {
    if reached == [] then []
    else
      var n := reached[|reached| - 1];
      PeersOver(env, reached[..|reached| - 1]) + if n in env.goals then [n] else []
  }

  function PeersAt(g: GraphView, plan: PatternPlan, env: Env, anchor: NodeId): seq<NodeId>
    requires plan.cardinality.VarLength?
  {
    PeersOver(env, ReachableWithin(g, plan.direction, plan.filter, anchor, plan.cardinality.min,
                                       EffectiveMaxDepth(plan.cardinality.max)))
  }

  function PeerRows(plan: PatternPlan, base: Binding, anchor: NodeId, peers: seq<NodeId>): seq<Binding> {
    seq(|peers|, i requires 0 <= i < |peers| => BindEnds(base, plan, anchor, peers[i]))
  }

  // ---- the uncapped enumeration ----

  function RowsAt(g: GraphView, plan: PatternPlan, env: Env, base: Binding, anchor: NodeId): seq<Binding> {
    if plan.cardinality.SingleHop? then HopRows(plan, base, HopsAt(g, plan, env, anchor))
    else PeerRows(plan, base, anchor, PeersAt(g, plan, env, anchor))
  }

  function RowsOver(g: GraphView, plan: PatternPlan, env: Env, base: Binding, anchors: seq<NodeId>): seq<Binding> {
    if anchors == [] then []
    else RowsOver(g, plan, env, base, anchors[..|anchors| - 1]) + RowsAt(g, plan, env, base, anchors[|anchors| - 1])
  }

  function AllRows(g: GraphView, plan: PatternPlan, env: Env, input: seq<Binding>): seq<Binding> {
    if input == [] then []
    else
      var base := input[|input| - 1];
      AllRows(g, plan, env, input[..|input| - 1]) + RowsOver(g, plan, env, base, Anchors(plan, env, base))
  }

  // ---- truncation ----

  function Upgraded(acc: Option<TruncationReason>, reason: TruncationReason): Option<TruncationReason> {
    if acc == Some(StepBudget) then acc else Some(reason)
  }

  function First(s: seq<Binding>, n: nat): seq<Binding> {
    if n < |s| then s[..n] else s
  }

  // What a capped stream holds of the rows enumerated so far, and the marker it carries.
  datatype Capped = Capped(out: seq<Binding>, mark: Option<TruncationReason>)

  function Cap(rows: seq<Binding>, mark: Option<TruncationReason>): Capped {
    Capped(First(rows, DEFAULT_VAR_LENGTH_ROWS),
           if |rows| > DEFAULT_VAR_LENGTH_ROWS then Upgraded(mark, PathCap) else mark)
  }

  // ---- one more element ----

  lemma MoreAnchors(g: GraphView, plan: PatternPlan, env: Env, base: Binding, anchors: seq<NodeId>, j: nat,
                    rows: seq<Binding>)
    requires j < |anchors|
    ensures rows + RowsOver(g, plan, env, base, anchors[..j + 1])
         == rows + RowsOver(g, plan, env, base, anchors[..j]) + RowsAt(g, plan, env, base, anchors[j])
  {
    assert anchors[..j + 1][..j] == anchors[..j];
    var was, more := RowsOver(g, plan, env, base, anchors[..j]), RowsAt(g, plan, env, base, anchors[j]);
    assert rows + (was + more) == rows + was + more;
  }

  lemma MoreHops(g: GraphView, plan: PatternPlan, env: Env, base: Binding, anchor: NodeId, es: seq<EdgeId>, i: nat)
    requires i < |es| && forall j | 0 <= j < |es| :: es[j] < |g.edges|
    ensures var peer := Far(g.edges[es[i]], plan.direction);
      HopRows(plan, base, HopsOver(g, plan, env, anchor, es[..i + 1]))
      == HopRows(plan, base, HopsOver(g, plan, env, anchor, es[..i]))
       + if env.test(peer) then [BindHop(base, plan, Hop(anchor, es[i], peer))] else []
  {
    assert es[..i + 1][..i] == es[..i];
    var peer := Far(g.edges[es[i]], plan.direction);
    var was := HopsOver(g, plan, env, anchor, es[..i]);
    var one := if env.test(peer) then [Hop(anchor, es[i], peer)] else [];
    assert HopsOver(g, plan, env, anchor, es[..i + 1]) == was + one;
    assert HopRows(plan, base, was + one) == HopRows(plan, base, was) + HopRows(plan, base, one);
  }

  lemma MorePeers(plan: PatternPlan, env: Env, base: Binding, anchor: NodeId, reached: seq<NodeId>, i: nat)
    requires i < |reached|
    ensures PeerRows(plan, base, anchor, PeersOver(env, reached[..i + 1]))
         == PeerRows(plan, base, anchor, PeersOver(env, reached[..i]))
          + if reached[i] in env.goals then [BindEnds(base, plan, anchor, reached[i])] else []
  {
    assert reached[..i + 1][..i] == reached[..i];
    var was := PeersOver(env, reached[..i]);
    if reached[i] in env.goals {
      assert PeersOver(env, reached[..i + 1]) == was + [reached[i]];
      assert PeerRows(plan, base, anchor, was + [reached[i]])
          == PeerRows(plan, base, anchor, was) + [BindEnds(base, plan, anchor, reached[i])];
    }
  }

  method BoundHop(base: Binding, plan: PatternPlan, anchor: NodeId, edge: EdgeId, peer: NodeId) returns (b: Binding)
    ensures b == BindHop(base, plan, Hop(anchor, edge, peer))
  {
    b := BindNode(base, plan.anchorVar, anchor);
    b := BindNode(b, plan.peerVar, peer);
    if plan.relVar.Some? {
      b := b[plan.relVar.value := Values.Edge(edge)];
    }
    if plan.pathVar.Some? {
      b := b[plan.pathVar.value := Values.Path([anchor, peer], [edge])];
    }
  }

  class Stream {
    var out: seq<Binding>
    var truncation: Option<TruncationReason>

    constructor (mark: Option<TruncationReason>)
      ensures out == [] && truncation == mark
    {
      out, truncation := [], mark;
    }

    function Now(): Capped
      reads this
    {
      Capped(out, truncation)
    }

    method UpgradeTruncation(reason: TruncationReason)
      modifies this`truncation
      ensures truncation == Upgraded(old(truncation), reason)
    {
      match truncation
      case None => truncation := Some(reason);
      case Some(PathCap) => truncation := Some(reason);
      case Some(StepBudget) =>
    }

    method ExpandSingleHop(g: GraphView, plan: PatternPlan, env: Env, base: Binding, anchor: NodeId)
      modifies this`out
      ensures out == old(out) + HopRows(plan, base, HopsAt(g, plan, env, anchor))
    {
      EmitHops(g, plan, env, base, anchor, Neighbors(g, anchor, plan.direction, plan.filter));
    }

    // The loop over the anchor's admitted edges.
    method EmitHops(g: GraphView, plan: PatternPlan, env: Env, base: Binding, anchor: NodeId, es: seq<EdgeId>)
      requires forall j | 0 <= j < |es| :: es[j] < |g.edges|
      modifies this`out
      ensures out == old(out) + HopRows(plan, base, HopsOver(g, plan, env, anchor, es))
    {
      ghost var before, found := out, [];
      assert HopRows(plan, base, HopsOver(g, plan, env, anchor, es[..0])) == [];
      for i := 0 to |es|
        invariant found == HopRows(plan, base, HopsOver(g, plan, env, anchor, es[..i]))
        invariant out == before + found
      {
        MoreHops(g, plan, env, base, anchor, es, i);
        var peer := Far(g.edges[es[i]], plan.direction);
        if env.test(peer) {
          var b := BoundHop(base, plan, anchor, es[i], peer);
          assert before + found + [b] == before + (found + [b]);
          out := out + [b];
          found := found + [b];
        }
      }
      assert es[..|es|] == es;
    }

    // `rows` are the rows enumerated before this anchor.
    method ExpandVarLength(g: GraphView, plan: PatternPlan, env: Env, base: Binding, anchor: NodeId,
                           ghost rows: seq<Binding>, ghost mark: Option<TruncationReason>)
      requires plan.cardinality.VarLength? && Now() == Cap(rows, mark)
      modifies this
      ensures Now() == Cap(rows + RowsAt(g, plan, env, base, anchor), mark)
    {
      var reached := ReachableWithin(g, plan.direction, plan.filter, anchor, plan.cardinality.min,
                                     EffectiveMaxDepth(plan.cardinality.max));
      EmitPeers(plan, env, base, anchor, reached, rows, mark);
    }

    // The loop over the reached nodes, which the cap may cut short.
    method EmitPeers(plan: PatternPlan, env: Env, base: Binding, anchor: NodeId, reached: seq<NodeId>,
                     ghost rows: seq<Binding>, ghost mark: Option<TruncationReason>)
      requires Now() == Cap(rows, mark)
      modifies this
      ensures Now() == Cap(rows + PeerRows(plan, base, anchor, PeersOver(env, reached)), mark)
    {
      ghost var found: seq<Binding> := [];
      assert PeerRows(plan, base, anchor, PeersOver(env, reached[..0])) == [];
      assert rows + [] == rows;
      for i := 0 to |reached|
        invariant found == PeerRows(plan, base, anchor, PeersOver(env, reached[..i]))
        invariant Now() == Cap(rows + found, mark)
      {
        MorePeers(plan, env, base, anchor, reached, i);
        if reached[i] in env.goals {
          var b := BindEnds(base, plan, anchor, reached[i]);
          CapSnoc(rows, found, b, mark);
          if |out| >= DEFAULT_VAR_LENGTH_ROWS {
            UpgradeTruncation(PathCap);
            RefusedForGood(plan, env, base, anchor, reached, i + 1, rows, mark);
            return;
          }
          out := out + [b];
          found := found + [b];
        }
      }
      assert reached[..|reached|] == reached;
    }

    // One pattern over the whole binding stream.
    method ExpandPattern(g: GraphView, plan: PatternPlan, env: Env, input: seq<Binding>)
      requires plan.cardinality.VarLength? ==> plan.pathVar.None?
      requires out == []
      modifies this
      ensures Progress(plan, AllRows(g, plan, env, input), old(truncation))
      ensures plan.cardinality.VarLength? ==> out == First(AllRows(g, plan, env, input), DEFAULT_VAR_LENGTH_ROWS)
      ensures plan.cardinality.VarLength? && old(truncation).None? ==>
                (truncation == Some(PathCap) <==> |AllRows(g, plan, env, input)| > DEFAULT_VAR_LENGTH_ROWS)
      ensures old(truncation) == Some(StepBudget) ==> truncation == Some(StepBudget)
    {
      ghost var mark := truncation;
      for i := 0 to |input|
        invariant Progress(plan, AllRows(g, plan, env, input[..i]), mark)
      {
        assert input[..i + 1][..i] == input[..i];
        ExpandBinding(g, plan, env, input[i], AllRows(g, plan, env, input[..i]), mark);
      }
      assert input[..|input|] == input;
    }

    // One turn of the loop over the input bindings.
    method ExpandBinding(g: GraphView, plan: PatternPlan, env: Env, base: Binding, ghost rows: seq<Binding>,
                         ghost mark: Option<TruncationReason>)
      requires Progress(plan, rows, mark)
      modifies this
      ensures Progress(plan, rows + RowsOver(g, plan, env, base, Anchors(plan, env, base)), mark)
    {
      var anchors := Anchors(plan, env, base);
      assert rows + [] == rows;
      for j := 0 to |anchors|
        invariant Progress(plan, rows + RowsOver(g, plan, env, base, anchors[..j]), mark)
      {
        MoreAnchors(g, plan, env, base, anchors, j, rows);
        ExpandAnchor(g, plan, env, base, anchors[j], rows + RowsOver(g, plan, env, base, anchors[..j]), mark);
      }
      assert anchors[..|anchors|] == anchors;
    }

    method ExpandAnchor(g: GraphView, plan: PatternPlan, env: Env, base: Binding, anchor: NodeId,
                        ghost rows: seq<Binding>, ghost mark: Option<TruncationReason>)
      requires Progress(plan, rows, mark)
      modifies this
      ensures Progress(plan, rows + RowsAt(g, plan, env, base, anchor), mark)
    {
      if plan.cardinality.SingleHop? {
        ExpandSingleHop(g, plan, env, base, anchor);
      } else {
        ExpandVarLength(g, plan, env, base, anchor, rows, mark);
      }
    }

    // A single hop enumerates everything; a variable-length walk the first rows of everything, with
    // the mark that says so.
    ghost predicate Progress(plan: PatternPlan, rows: seq<Binding>, mark: Option<TruncationReason>)
      reads this
    {
      if plan.cardinality.SingleHop? then Now() == Capped(rows, mark) else Now() == Cap(rows, mark)
    }
  }

  lemma CapSnoc(rows: seq<Binding>, found: seq<Binding>, b: Binding, mark: Option<TruncationReason>)
    ensures var was := Cap(rows + found, mark);
      Cap(rows + (found + [b]), mark)
      == if |was.out| >= DEFAULT_VAR_LENGTH_ROWS then Capped(was.out, Upgraded(was.mark, PathCap))
         else Capped(was.out + [b], was.mark)
  {
    assert rows + (found + [b]) == rows + found + [b];
  }

  // Peers found later only append.
  lemma {:induction false} PeersExtend(env: Env, reached: seq<NodeId>, i: nat)
    requires i <= |reached|
    ensures PeersOver(env, reached[..i]) <= PeersOver(env, reached)
    decreases |reached|
  {
    if i < |reached| {
      var init := reached[..|reached| - 1];
      assert reached[..i] == init[..i];
      PeersExtend(env, init, i);
    } else {
      assert reached[..i] == reached;
    }
  }

  // Once a row is refused, the rest of the anchor's rows change nothing.
  lemma RefusedForGood(plan: PatternPlan, env: Env, base: Binding, anchor: NodeId, reached: seq<NodeId>, i: nat,
                       rows: seq<Binding>, mark: Option<TruncationReason>)
    requires i <= |reached|
    requires |rows + PeerRows(plan, base, anchor, PeersOver(env, reached[..i]))| > DEFAULT_VAR_LENGTH_ROWS
    ensures Cap(rows + PeerRows(plan, base, anchor, PeersOver(env, reached)), mark)
         == Cap(rows + PeerRows(plan, base, anchor, PeersOver(env, reached[..i])), mark)
  {
    var some, all := PeerRows(plan, base, anchor, PeersOver(env, reached[..i])),
                     PeerRows(plan, base, anchor, PeersOver(env, reached));
    PeersExtend(env, reached, i);
    assert some <= all;
    assert (rows + all)[..|rows + some|] == rows + some;
  }
}
