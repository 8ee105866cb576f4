// A written single-relationship pattern against its lowered plan: which solutions evaluation finds
// (crates/cgx-cql/src/lower.rs, lower_single; crates/cgx-cql/src/eval.rs, expand_pattern).
module Solutions {
  import opened Prelude
  import opened Graph
  import opened Ast
  import opened CodeGraph
  import opened Lowering
  import opened BindingStream
  import opened Evaluation
  import opened Meaning
  import opened Relationships
  import opened Hops
  import opened Anchoring

  // One way to match `(start)-[rel]->(end)`, in written order.
  datatype Solution = Solution(start: NodeId, edge: EdgeId, end: NodeId)

  predicate NodeMatches(g: GraphView, node: NodePat, id: NodeId) {
    id < |g.nodes| && Satisfies(node, g.nodes[id])
  }

  predicate EdgeMatches(g: GraphView, rel: RelPat, x: Solution) {
    x.edge < |g.edges| && RelHolds(rel, g.edges[x.edge]) && Runs(rel, g.edges[x.edge], x.start, x.end)
  }

  // What the pattern asks for.
  predicate Solves(g: GraphView, start: NodePat, rel: RelPat, end: NodePat, x: Solution) {
    NodeMatches(g, start, x.start) && NodeMatches(g, end, x.end) && EdgeMatches(g, rel, x)
  }

  // What evaluation checks: at the anchored end, only the constraint `anchor_set` keeps.
  predicate Kept(g: GraphView, c: Constraint, id: NodeId) {
    id < |g.nodes| && Keeps(AnchorSetOf(c), g.nodes[id])
  }

  predicate Found(g: GraphView, start: NodePat, rel: RelPat, end: NodePat, p: Parts, x: Solution) {
    && EdgeMatches(g, rel, x)
    && if AnchorsAtStart(p) then Kept(g, p.start, x.start) && NodeMatches(g, end, x.end)
       else Kept(g, p.end, x.end) && NodeMatches(g, start, x.start)
  }

  function AnchorOf(p: Parts): Constraint {
    if AnchorsAtStart(p) then p.start else p.end
  }

  function PeerOf(p: Parts): Constraint {
    if AnchorsAtStart(p) then p.end else p.start
  }

  function PlanOf(pathVar: Option<string>, start: NodePat, rel: RelPat, end: NodePat, p: Parts): PatternPlan {
    if AnchorsAtStart(p) then FromStart(pathVar, start, rel, end, p) else FromEnd(pathVar, start, rel, end, p)
  }

  function Oriented(p: Parts, h: Hop): Solution {
    if AnchorsAtStart(p) then Solution(h.anchor, h.edge, h.peer) else Solution(h.peer, h.edge, h.anchor)
  }

  function HopOf(p: Parts, x: Solution): Hop {
    if AnchorsAtStart(p) then Hop(x.start, x.edge, x.end) else Hop(x.end, x.edge, x.start)
  }

  // The solutions evaluation enumerates, in order.
  function Enumerated(g: GraphView, plan: PatternPlan, p: Parts): seq<Solution> {
    var hs := HopsFrom(g, plan, EnvOf(g, plan), AnchorIds(g, plan.anchor));
    seq(|hs|, i requires 0 <= i < |hs| => Oriented(p, hs[i]))
  }

  lemma InEnumerated(g: GraphView, plan: PatternPlan, p: Parts, x: Solution)
    ensures x in Enumerated(g, plan, p) <==> HopOf(p, x) in HopsFrom(g, plan, EnvOf(g, plan), AnchorIds(g, plan.anchor))
  {
    var hs := HopsFrom(g, plan, EnvOf(g, plan), AnchorIds(g, plan.anchor));
    var xs := Enumerated(g, plan, p);
    if x in xs {
      var i :| 0 <= i < |xs| && xs[i] == x;
      assert HopOf(p, Oriented(p, hs[i])) == hs[i];
    }
    if HopOf(p, x) in hs {
      var i :| 0 <= i < |hs| && hs[i] == HopOf(p, x);
      assert xs[i] == x;
    }
  }

  lemma PeerTestMeans(g: GraphView, pathVar: Option<string>, start: NodePat, rel: RelPat, end: NodePat, p: Parts,
                      id: NodeId)
    requires PartsOf(start, rel, end) == Success(p)
    ensures EnvOf(g, PlanOf(pathVar, start, rel, end, p)).test(id)
      <==> NodeMatches(g, if AnchorsAtStart(p) then end else start, id)
  {
    var plan := PlanOf(pathVar, start, rel, end, p);
    var c := PeerOf(p);
    assert Constraint(plan.peerProps, plan.peerKinds) == c;
    assert EnvOf(g, plan).test(id) <==> PeerMatches(g, plan, id);
    if id < |g.nodes| {
      ConstraintsMean(if AnchorsAtStart(p) then end else start, c, g.nodes[id]);
    }
  }

  lemma WalkMeans(g: GraphView, pathVar: Option<string>, start: NodePat, rel: RelPat, end: NodePat, p: Parts,
                  x: Solution)
    requires PartsOf(start, rel, end) == Success(p) && x.edge < |g.edges|
    ensures var plan, h, e := PlanOf(pathVar, start, rel, end, p), HopOf(p, x), g.edges[x.edge];
      Near(e, plan.direction) == h.anchor && Far(e, plan.direction) == h.peer && Admits(plan.filter, e)
      <==> RelHolds(rel, e) && Runs(rel, e, x.start, x.end)
  {
    FilterMeans(start, rel, end, p, g.edges[x.edge], x.start, x.end);
  }

  // A hop of the plan is a found solution seen from the anchor.
  lemma HopIsFound(g: GraphView, pathVar: Option<string>, start: NodePat, rel: RelPat, end: NodePat, p: Parts,
                   x: Solution)
    requires PartsOf(start, rel, end) == Success(p)
    ensures var plan := PlanOf(pathVar, start, rel, end, p);
      HopOf(p, x).anchor in AnchorIds(g, plan.anchor) && IsHop(g, plan, EnvOf(g, plan), HopOf(p, x))
      <==> Found(g, start, rel, end, p, x)
  {
    var plan, h := PlanOf(pathVar, start, rel, end, p), HopOf(p, x);
    AnchorIdsMean(g, plan.anchor, h.anchor);
    assert plan.anchor == AnchorSetOf(AnchorOf(p));
    assert h.anchor in AnchorIds(g, plan.anchor) <==> Kept(g, AnchorOf(p), h.anchor);
    PeerTestMeans(g, pathVar, start, rel, end, p, h.peer);
    if x.edge < |g.edges| {
      WalkMeans(g, pathVar, start, rel, end, p, x);
    }
    assert IsHop(g, plan, EnvOf(g, plan), h)
      <==> EdgeMatches(g, rel, x) && NodeMatches(g, if AnchorsAtStart(p) then end else start, h.peer);
  }

  // Evaluation enumerates exactly the found solutions, each once.
  lemma EnumeratesFound(g: GraphView, pathVar: Option<string>, start: NodePat, rel: RelPat, end: NodePat, p: Parts)
    requires PartsOf(start, rel, end) == Success(p)
    ensures var xs := Enumerated(g, PlanOf(pathVar, start, rel, end, p), p);
      && (forall x :: x in xs <==> Found(g, start, rel, end, p, x))
      && forall i, j | 0 <= i < j < |xs| :: xs[i] != xs[j]
  {
    var plan := PlanOf(pathVar, start, rel, end, p);
    var env := EnvOf(g, plan);
    var hs := HopsFrom(g, plan, env, AnchorIds(g, plan.anchor));
    var xs := Enumerated(g, plan, p);
    forall x ensures x in xs <==> Found(g, start, rel, end, p, x) {
      InEnumerated(g, plan, p, x);
      HopsFromMean(g, plan, env, AnchorIds(g, plan.anchor), HopOf(p, x));
      HopIsFound(g, pathVar, start, rel, end, p, x);
    }
    AnchorIdsMean(g, plan.anchor, 0);
    HopsFromOnce(g, plan, env, AnchorIds(g, plan.anchor));
    forall i, j | 0 <= i < j < |xs| ensures xs[i] != xs[j] {
      assert hs[i] != hs[j];
      assert HopOf(p, xs[i]) == hs[i] && HopOf(p, xs[j]) == hs[j];
    }
  }

  // Whichever end is the anchor, no solution of the pattern is lost.
  lemma NoSolutionLost(g: GraphView, start: NodePat, rel: RelPat, end: NodePat, p: Parts, x: Solution)
    requires PartsOf(start, rel, end) == Success(p) && Solves(g, start, rel, end, x)
    ensures Found(g, start, rel, end, p, x)
  {
    ConstraintsMean(start, p.start, g.nodes[x.start]);
    ConstraintsMean(end, p.end, g.nodes[x.end]);
    if AnchorsAtStart(p) {
      MeetsKeeps(p.start, g.nodes[x.start]);
    } else {
      MeetsKeeps(p.end, g.nodes[x.end]);
    }
  }

  // When the anchored end keeps all it was given, evaluation finds the pattern's solutions and
  // nothing else.
  lemma ExactWhenLossless(g: GraphView, start: NodePat, rel: RelPat, end: NodePat, p: Parts, x: Solution)
    requires PartsOf(start, rel, end) == Success(p) && Lossless(AnchorOf(p))
    ensures Found(g, start, rel, end, p, x) <==> Solves(g, start, rel, end, x)
  {
    if Solves(g, start, rel, end, x) {
      NoSolutionLost(g, start, rel, end, p, x);
    }
    if Found(g, start, rel, end, p, x) {
      if AnchorsAtStart(p) {
        LosslessKeepsEnough(p.start, g.nodes[x.start]);
        ConstraintsMean(start, p.start, g.nodes[x.start]);
      } else {
        LosslessKeepsEnough(p.end, g.nodes[x.end]);
        ConstraintsMean(end, p.end, g.nodes[x.end]);
      }
    }
  }

  ghost predicate AlwaysExact(start: NodePat, rel: RelPat, end: NodePat, p: Parts) {
    forall g, x :: Found(g, start, rel, end, p, x) ==> Solves(g, start, rel, end, x)
  }

  // A stored edge that a relationship admits.
  lemma SomeEdge(rel: RelPat, start: NodePat, end: NodePat, p: Parts, s: NodeId, t: NodeId) returns (e: EdgeRecord)
    requires PartsOf(start, rel, end) == Success(p)
    ensures RelHolds(rel, e) && Runs(rel, e, s, t)
  {
    var kind := if p.filter.kinds.Some? && p.filter.kinds.value != [] then p.filter.kinds.value[0] else Calls;
    var condition := if p.filter.condition.Only? then p.filter.condition.c else Always;
    var d := WalkDirection(rel.direction, p.rel.invert);
    e := EdgeRecord(if d == Forward then s else t, if d == Forward then t else s, kind, condition, Certain);
    Relationships.KindsMean(rel.types, p.rel, kind);
    Relationships.PropsMean(CallsFilter(p.rel.kinds), rel.props, p.filter);
    FilterMeans(start, rel, end, p, e, s, t);
  }

  lemma ExtraSolution(start: NodePat, rel: RelPat, end: NodePat, p: Parts, na: NodeRecord, np: NodeRecord)
    requires PartsOf(start, rel, end) == Success(p)
    requires Keeps(AnchorSetOf(AnchorOf(p)), na) && !Meets(AnchorOf(p), na) && Meets(PeerOf(p), np)
    ensures !AlwaysExact(start, rel, end, p)
  {
    var atStart := AnchorsAtStart(p);
    var s, t := if atStart then 0 else 1, if atStart then 1 else 0;
    var e := SomeEdge(rel, start, end, p, s, t);
    var g := GraphView([na, np], [e]);
    var x := Solution(s, 0, t);
    ConstraintsMean(start, p.start, na);
    ConstraintsMean(end, p.end, na);
    ConstraintsMean(start, p.start, np);
    ConstraintsMean(end, p.end, np);
    assert Found(g, start, rel, end, p, x) && !Solves(g, start, rel, end, x);
  }

  // Exactness on every graph, decided by the pattern alone: the anchored end must keep all it was
  // given, unless nothing can stand at the other end.
  lemma ExactnessIsDecidedByAnchor(start: NodePat, rel: RelPat, end: NodePat, p: Parts)
    requires PartsOf(start, rel, end) == Success(p)
    ensures AlwaysExact(start, rel, end, p) <==> Lossless(AnchorOf(p)) || forall n :: !Meets(PeerOf(p), n)
  {
    ConstraintsWellFormed(start.tag, start.props);
    ConstraintsWellFormed(end.tag, end.props);
    AnchorSetIsLossless(AnchorOf(p));
    if Lossless(AnchorOf(p)) {
      forall g, x | Found(g, start, rel, end, p, x) ensures Solves(g, start, rel, end, x) {
        ExactWhenLossless(g, start, rel, end, p, x);
      }
    } else if np :| Meets(PeerOf(p), np) {
      var na :| Keeps(AnchorSetOf(AnchorOf(p)), na) && !Meets(AnchorOf(p), na);
      ExtraSolution(start, rel, end, p, na, np);
    } else {
      forall g, x ensures Found(g, start, rel, end, p, x) ==> Solves(g, start, rel, end, x) {
        NothingFound(g, start, rel, end, p, x);
      }
    }
  }

  lemma NothingFound(g: GraphView, start: NodePat, rel: RelPat, end: NodePat, p: Parts, x: Solution)
    requires PartsOf(start, rel, end) == Success(p) && forall n :: !Meets(PeerOf(p), n)
    ensures !Found(g, start, rel, end, p, x)
  {
    if Found(g, start, rel, end, p, x) {
      ConstraintsMean(if AnchorsAtStart(p) then end else start, PeerOf(p),
                      g.nodes[if AnchorsAtStart(p) then x.end else x.start]);
    }
  }
}
