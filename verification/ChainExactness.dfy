// When the evaluation of a chained pattern is exact on every graph (crates/cgx-cql/src/lower.rs,
// lower_pattern_chain and anchor_set).
module ChainExactness {
  import opened Prelude
  import opened Graph
  import opened Ast
  import opened CodeGraph
  import opened Lowering
  import opened BindingStream
  import opened Evaluation
  import opened Meaning
  import opened Relationships
  import opened Anchoring
  import opened Solutions
  import opened Chains
  import opened ChainMeaning

  ghost predicate ChainAlwaysExact(pat: PathPattern, c: Constraint) {
    forall g, w | |w| == |pat.steps| && ChainFound(g, pat, c, w) :: ChainSolves(g, pat, w)
  }

  ghost predicate Satisfiable(node: NodePat) {
    exists n :: Satisfies(node, n)
  }

  // The graph is a line of `m` edges from `na` that takes the pattern's first `m` steps.
  predicate IsLine(g: GraphView, pat: PathPattern, na: NodeRecord, w: Walk, m: nat)
    requires m <= |pat.steps|
  {
    && |g.nodes| == m + 1 && g.nodes[0] == na && |g.edges| == m && |w| == m
    && (forall j | 0 <= j < m :: w[j] == Hop(j, j, j + 1))
    && forall j | 0 <= j < m :: StepMatches(g, pat, w, j)
  }

  lemma {:induction false} SomeLine(pat: PathPattern, na: NodeRecord, m: nat) returns (g: GraphView, w: Walk)
    requires m <= |pat.steps| && forall i | 0 <= i < m :: ChainStep(pat, i).Success?
    requires forall i | 0 <= i < m :: Satisfiable(pat.steps[i].node)
    ensures IsLine(g, pat, na, w, m)
    decreases m
  {
    if m == 0 {
      g, w := GraphView([na], []), [];
    } else {
      var i := m - 1;
      var g', w' := SomeLine(pat, na, i);
      assert ChainStep(pat, i).Success?;
      var e := SomeEdge(pat.steps[i].rel, NodeAt(pat, i), pat.steps[i].node, StepParts(pat, i), i, m);
      assert Satisfiable(pat.steps[i].node);
      var n :| Satisfies(pat.steps[i].node, n);
      g, w := GraphView(g'.nodes + [n], g'.edges + [e]), w' + [Hop(i, i, m)];
      LongerLine(g', pat, na, w', i, n, e);
    }
  }

  lemma LongerLine(g: GraphView, pat: PathPattern, na: NodeRecord, w: Walk, i: nat, n: NodeRecord, e: EdgeRecord)
    requires i < |pat.steps| && IsLine(g, pat, na, w, i) && Satisfies(pat.steps[i].node, n)
    requires RelHolds(pat.steps[i].rel, e) && Runs(pat.steps[i].rel, e, i, i + 1)
    ensures IsLine(GraphView(g.nodes + [n], g.edges + [e]), pat, na, w + [Hop(i, i, i + 1)], i + 1)
  {
    var g', w' := GraphView(g.nodes + [n], g.edges + [e]), w + [Hop(i, i, i + 1)];
    forall j | 0 <= j < i ensures StepMatches(g', pat, w', j) {
      assert StepMatches(g, pat, w, j);
      assert g'.edges[j] == g.edges[j] && g'.nodes[j + 1] == g.nodes[j + 1];
    }
    assert g'.edges[i] == e && g'.nodes[i + 1] == n;
  }

  // Exactness on every graph, decided by the pattern alone: the start node must keep all it was
  // given, unless some later node of the chain can be nothing at all.
  lemma ChainExactnessIsDecidedByStart(pat: PathPattern, c: Constraint)
    requires pat.steps != [] && ChainSteps(pat, |pat.steps|).Success?
    requires Constraints(pat.start.tag, pat.start.props) == Success(c)
    ensures ChainAlwaysExact(pat, c)
      <==> Lossless(c) || exists i | 0 <= i < |pat.steps| :: !Satisfiable(pat.steps[i].node)
  {
    var n := |pat.steps|;
    ConstraintsWellFormed(pat.start.tag, pat.start.props);
    AnchorSetIsLossless(c);
    if Lossless(c) {
      forall g, w | |w| == n && ChainFound(g, pat, c, w) ensures ChainSolves(g, pat, w) {
        ChainExact(g, pat, c, w);
      }
    } else if i :| 0 <= i < n && !Satisfiable(pat.steps[i].node) {
      forall g, w | |w| == n ensures !ChainFound(g, pat, c, w) {
        assert StepsMatch(g, pat, w) ==> StepMatches(g, pat, w, i);
      }
    } else {
      var na :| Keeps(AnchorSetOf(c), na) && !Meets(c, na);
      ConstraintsMean(pat.start, c, na);
      forall i | 0 <= i < n ensures ChainStep(pat, i).Success? {
        ChainPlans(pat, n, i);
      }
      var g, w := SomeLine(pat, na, n);
      assert ChainFound(g, pat, c, w) && !ChainSolves(g, pat, w);
    }
  }
}
