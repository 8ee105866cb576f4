// The depth-layered walk behind peer sets (crates/cgx-query/src/walk.rs, reachable_within): it finds
// exactly the nodes some walk of a permitted length ends at, cycles and the start itself included.
module Reachability {
  import opened Graph
  import opened CodeGraph
  import opened BindingStream

  ghost predicate Layer(g: GraphView, d: Direction, f: EdgeFilter, start: NodeId, k: nat, frontier: seq<NodeId>) {
    forall n :: n in frontier <==> ReachedIn(g, d, f, start, n, k)
  }

  // Reached with some permitted length up to `k`.
  ghost predicate Gathered(g: GraphView, d: Direction, f: EdgeFilter, start: NodeId, min: nat, k: nat,
                           admitted: set<NodeId>) {
    forall n: nat :: n in admitted <==> ReachedBetween(g, d, f, start, n, min, k)
  }

  lemma StepsAreNeighbors(g: GraphView, d: Direction, f: EdgeFilter, a: NodeId, b: NodeId)
    ensures StepTo(g, d, f, a, b) <==>
      b < |g.nodes| && exists i | 0 <= i < |Neighbors(g, a, d, f)| :: Far(g.edges[Neighbors(g, a, d, f)[i]], d) == b
  {
    var es := Neighbors(g, a, d, f);
    if StepTo(g, d, f, a, b) {
      var e :| 0 <= e < |g.edges| && Near(g.edges[e], d) == a && Far(g.edges[e], d) == b && Admits(f, g.edges[e]);
      assert e in es;
      var i :| 0 <= i < |es| && es[i] == e;
    }
  }

  method Peers(g: GraphView, d: Direction, f: EdgeFilter, a: NodeId, next0: seq<NodeId>) returns (next: seq<NodeId>)
    ensures forall n :: n in next <==> n in next0 || StepTo(g, d, f, a, n)
  {
    next := next0;
    var es := Neighbors(g, a, d, f);
    for i := 0 to |es|
      invariant forall n :: n in next <==>
        n in next0 || (n < |g.nodes| && exists j | 0 <= j < i :: Far(g.edges[es[j]], d) == n)
    {
      var peer := Far(g.edges[es[i]], d);
      if peer < |g.nodes| && peer !in next {
        next := next + [peer];
      }
    }
    forall n ensures n in next <==> n in next0 || StepTo(g, d, f, a, n) {
      StepsAreNeighbors(g, d, f, a, n);
    }
  }

  method NextLayer(g: GraphView, d: Direction, f: EdgeFilter, frontier: seq<NodeId>) returns (next: seq<NodeId>)
    ensures forall n :: n in next <==> exists m | m in frontier :: StepTo(g, d, f, m, n)
  {
    next := [];
    for i := 0 to |frontier|
      invariant forall n :: n in next <==> exists m | m in frontier[..i] :: StepTo(g, d, f, m, n)
    {
      assert frontier[..i + 1] == frontier[..i] + [frontier[i]];
      next := Peers(g, d, f, frontier[i], next);
    }
    assert frontier[..|frontier|] == frontier;
  }

  lemma LayerInRange(g: GraphView, d: Direction, f: EdgeFilter, start: NodeId, n: NodeId, k: nat)
    requires start < |g.nodes| && ReachedIn(g, d, f, start, n, k)
    ensures n < |g.nodes|
  {
  }

  lemma LayerAdvances(g: GraphView, d: Direction, f: EdgeFilter, start: NodeId, k: nat, frontier: seq<NodeId>,
                      next: seq<NodeId>)
    requires start < |g.nodes| && Layer(g, d, f, start, k, frontier)
    requires forall n :: n in next <==> exists m | m in frontier :: StepTo(g, d, f, m, n)
    ensures Layer(g, d, f, start, k + 1, next)
  {
    forall n ensures n in next <==> ReachedIn(g, d, f, start, n, k + 1) {
      if n in next {
        var m :| m in frontier && StepTo(g, d, f, m, n);
        LayerInRange(g, d, f, start, m, k);
      }
      if ReachedIn(g, d, f, start, n, k + 1) {
        var m :| 0 <= m < |g.nodes| && ReachedIn(g, d, f, start, m, k) && StepTo(g, d, f, m, n);
        assert m in frontier;
      }
    }
  }

  lemma GatherLayer(g: GraphView, d: Direction, f: EdgeFilter, start: NodeId, min: nat, k: nat, n: NodeId)
    ensures ReachedBetween(g, d, f, start, n, min, k + 1)
      <==> ReachedBetween(g, d, f, start, n, min, k) || (min <= k + 1 && ReachedIn(g, d, f, start, n, k + 1))
  {
    if ReachedBetween(g, d, f, start, n, min, k + 1) {
      var j :| 1 <= j <= k + 1 && min <= j && ReachedIn(g, d, f, start, n, j);
    }
  }

  // Once a layer is empty, so are all later ones.
  lemma {:induction false} Drained(g: GraphView, d: Direction, f: EdgeFilter, start: NodeId, k: nat, n: NodeId, j: nat)
    requires Layer(g, d, f, start, k, []) && k <= j
    ensures !ReachedIn(g, d, f, start, n, j)
    decreases j
  {
    if j > k {
      var i := j - 1;
      forall m | 0 <= m < |g.nodes| ensures !ReachedIn(g, d, f, start, m, i) {
        Drained(g, d, f, start, k, m, i);
      }
    } else {
      assert n !in [];
    }
  }

  lemma DrainedGather(g: GraphView, d: Direction, f: EdgeFilter, start: NodeId, min: nat, k: nat, max: nat, n: NodeId)
    requires Layer(g, d, f, start, k, []) && k <= max
    ensures ReachedBetween(g, d, f, start, n, min, max) <==> ReachedBetween(g, d, f, start, n, min, k)
  {
    if ReachedBetween(g, d, f, start, n, min, max) {
      var j :| 1 <= j <= max && min <= j && ReachedIn(g, d, f, start, n, j);
      if j >= k {
        Drained(g, d, f, start, k, n, j);
      }
    }
  }

  lemma GatherNext(g: GraphView, d: Direction, f: EdgeFilter, start: NodeId, min: nat, k: nat, admitted: set<NodeId>,
                   next: seq<NodeId>)
    requires Gathered(g, d, f, start, min, k, admitted) && Layer(g, d, f, start, k + 1, next)
    ensures Gathered(g, d, f, start, min, k + 1, if k + 1 >= min then admitted + (set n | n in next) else admitted)
  {
    var admitted' := if k + 1 >= min then admitted + (set n | n in next) else admitted;
    forall n: nat ensures n in admitted' <==> ReachedBetween(g, d, f, start, n, min, k + 1) {
      GatherLayer(g, d, f, start, min, k, n);
    }
  }

  lemma GatherRest(g: GraphView, d: Direction, f: EdgeFilter, start: NodeId, min: nat, k: nat, max: nat,
                   admitted: set<NodeId>)
    requires Layer(g, d, f, start, k, []) && k <= max && Gathered(g, d, f, start, min, k, admitted)
    ensures Gathered(g, d, f, start, min, max, admitted)
  {
    forall n: nat ensures n in admitted <==> ReachedBetween(g, d, f, start, n, min, max) {
      DrainedGather(g, d, f, start, min, k, max, n);
    }
  }

  method Within(g: GraphView, d: Direction, f: EdgeFilter, start: NodeId, min: nat, max: nat)
    returns (out: seq<NodeId>)
    requires start < |g.nodes|
    ensures out == ReachableWithin(g, d, f, start, min, max)
  {
    var admitted: set<NodeId> := {};
    var frontier := [start];
    var depth := 0;
    while depth < max && frontier != []
      invariant depth <= max
      invariant Layer(g, d, f, start, depth, frontier)
      invariant Gathered(g, d, f, start, min, depth, admitted)
      decreases max - depth
    {
      var next := NextLayer(g, d, f, frontier);
      LayerAdvances(g, d, f, start, depth, frontier, next);
      GatherNext(g, d, f, start, min, depth, admitted, next);
      depth := depth + 1;
      if depth >= min {
        admitted := admitted + set n | n in next;
      }
      frontier := next;
    }
    if depth < max {
      GatherRest(g, d, f, start, min, depth, max, admitted);
    }
    out := Select(|g.nodes|, (n: nat) => n in admitted);
    SelectSame(|g.nodes|, (n: nat) => n in admitted, (n: nat) => ReachedBetween(g, d, f, start, n, min, max));
  }

  lemma {:induction false} SelectSame(n: nat, p: nat -> bool, q: nat -> bool)
    requires forall i: nat | i < n :: p(i) == q(i)
    ensures Select(n, p) == Select(n, q)
  {
    if n > 0 {
      SelectSame(n - 1, p, q);
    }
  }
}
