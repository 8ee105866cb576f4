// A chained pattern means its lowered plans: exactly the written chains are enumerated, each once,
// and each binds its variables to its nodes and edges (crates/cgx-cql/src/lower.rs,
// lower_pattern_chain and lower_chained_step).
module ChainMeaning {
  import opened Prelude
  import opened Graph
  import Values
  import opened Ast
  import opened CodeGraph
  import opened Lowering
  import opened BindingStream
  import opened Evaluation
  import opened Meaning
  import opened Relationships
  import opened Hops
  import opened Anchoring
  import opened Solutions
  import opened Chains

  function SolutionOf(h: Hop): Solution {
    Solution(h.anchor, h.edge, h.peer)
  }

  // The walk takes the j-th relationship of the pattern to its next node.
  predicate StepMatches(g: GraphView, pat: PathPattern, w: Walk, j: nat)
    requires j < |w| && j < |pat.steps|
  {
    && EdgeMatches(g, pat.steps[j].rel, SolutionOf(w[j]))
    && NodeMatches(g, pat.steps[j].node, w[j].peer)
    && (j > 0 ==> w[j].anchor == w[j - 1].peer)
  }

  predicate StepsMatch(g: GraphView, pat: PathPattern, w: Walk) {
    |w| <= |pat.steps| && forall j | 0 <= j < |w| :: StepMatches(g, pat, w, j)
  }

  // What the pattern asks for.
  predicate ChainSolves(g: GraphView, pat: PathPattern, w: Walk) {
    && w != [] && |w| == |pat.steps| && NodeMatches(g, pat.start, w[0].anchor) && StepsMatch(g, pat, w)
  }

  // What evaluation checks of the first `|w|` steps: of the start node, only what its anchor keeps.
  predicate ChainFound(g: GraphView, pat: PathPattern, c: Constraint, w: Walk) {
    StepsMatch(g, pat, w) && (w != [] ==> Kept(g, c, w[0].anchor))
  }

  predicate SingleHops(pat: PathPattern) {
    forall i | 0 <= i < |pat.steps| :: pat.steps[i].rel.varLen.None?
  }

  predicate Apart(a: Option<string>, b: Option<string>) {
    a.Some? ==> a != b
  }

  // No variable is written twice.
  predicate Separate(pat: PathPattern) {
    && (forall i, j | 0 <= i < j <= |pat.steps| :: Apart(NodeAt(pat, i).v, NodeAt(pat, j).v))
    && (forall i, j | 0 <= i <= |pat.steps| && 0 <= j < |pat.steps| :: Apart(NodeAt(pat, i).v, pat.steps[j].rel.v))
    && (forall i, j | 0 <= i < j < |pat.steps| :: Apart(pat.steps[i].rel.v, pat.steps[j].rel.v))
  }

  // No relationship variable overwrites the node the next step starts from.
  predicate JoinsHold(pat: PathPattern) {
    forall i | 0 < i < |pat.steps| :: Apart(NodeAt(pat, i).v, pat.steps[i - 1].rel.v)
  }

  // ---- the plans of a chain ----

  function StepParts(pat: PathPattern, i: nat): Parts
    requires i < |pat.steps| && ChainStep(pat, i).Success?
  {
    PartsOf(NodeAt(pat, i), pat.steps[i].rel, pat.steps[i].node).value
  }

  lemma {:induction false} ChainLength(pat: PathPattern, n: nat)
    requires n <= |pat.steps| && ChainSteps(pat, n).Success?
    ensures |ChainSteps(pat, n).value| == n
    decreases n
  {
    if n > 0 {
      ChainLength(pat, n - 1);
    }
  }

  lemma LastPlan(pat: PathPattern, n: nat)
    requires 0 < n <= |pat.steps| && ChainSteps(pat, n).Success?
    ensures ChainSteps(pat, n - 1).Success? && ChainStep(pat, n - 1).Success?
    ensures ChainSteps(pat, n).value == ChainSteps(pat, n - 1).value + [ChainStep(pat, n - 1).value]
  {
  }

  lemma {:induction false} ChainPlans(pat: PathPattern, n: nat, i: nat)
    requires i < n <= |pat.steps| && ChainSteps(pat, n).Success?
    ensures |ChainSteps(pat, n).value| == n
    ensures ChainStep(pat, i).Success? && ChainSteps(pat, n).value[i] == ChainStep(pat, i).value
    ensures ChainSteps(pat, i).Success? && ChainSteps(pat, n).value[..i] == ChainSteps(pat, i).value
    decreases n
  {
    LastPlan(pat, n);
    ChainLength(pat, n - 1);
    if i < n - 1 {
      ChainPlans(pat, n - 1, i);
    }
  }

  lemma ChainIsJoined(pat: PathPattern, n: nat)
    requires n <= |pat.steps| && ChainSteps(pat, n).Success? && SingleHops(pat) && JoinsHold(pat)
    ensures Joined(ChainSteps(pat, n).value)
  {
    var plans := ChainSteps(pat, n).value;
    ChainLength(pat, n);
    forall i | 0 <= i < |plans| ensures plans[i].cardinality.SingleHop? && plans[i].pathVar.None? {
      ChainPlans(pat, n, i);
    }
    if plans != [] {
      ChainPlans(pat, n, 0);
    }
    forall i | 0 < i < |plans| ensures JoinedTo(plans[i - 1], plans[i]) {
      ChainPlans(pat, n, i - 1);
      ChainPlans(pat, n, i);
      assert Apart(NodeAt(pat, i).v, pat.steps[i - 1].rel.v);
    }
  }

  // ---- one step ----

  lemma StepHop(g: GraphView, start: NodePat, rel: RelPat, end: NodePat, p: Parts, plan: PatternPlan, h: Hop)
    requires PartsOf(start, rel, end) == Success(p)
    requires plan.(anchorBoundVar := None) == FromStart(None, start, rel, end, p)
    ensures IsHop(g, plan, EnvOf(g, plan), h) <==> EdgeMatches(g, rel, SolutionOf(h)) && NodeMatches(g, end, h.peer)
  {
    assert Constraint(plan.peerProps, plan.peerKinds) == p.end;
    assert EnvOf(g, plan).test(h.peer) <==> PeerMatches(g, plan, h.peer);
    if h.peer < |g.nodes| {
      ConstraintsMean(end, p.end, g.nodes[h.peer]);
    }
    if h.edge < |g.edges| {
      FilterMeans(start, rel, end, p, g.edges[h.edge], h.anchor, h.peer);
    }
  }

  function Envs(g: GraphView, plans: seq<PatternPlan>): seq<Env> {
    seq(|plans|, i requires 0 <= i < |plans| => EnvOf(g, plans[i]))
  }

  // A hop of the i-th plan takes the i-th step of the pattern.
  lemma StepTaken(g: GraphView, pat: PathPattern, i: nat, h: Hop)
    requires i < |pat.steps| && ChainStep(pat, i).Success?
    ensures var plan := ChainStep(pat, i).value;
      IsHop(g, plan, EnvOf(g, plan), h)
      <==> EdgeMatches(g, pat.steps[i].rel, SolutionOf(h)) && NodeMatches(g, pat.steps[i].node, h.peer)
  {
    StepHop(g, NodeAt(pat, i), pat.steps[i].rel, pat.steps[i].node, StepParts(pat, i), ChainStep(pat, i).value, h);
  }

  lemma FirstAnchors(g: GraphView, pat: PathPattern, c: Constraint, id: NodeId)
    requires pat.steps != [] && ChainStep(pat, 0).Success?
    requires Constraints(pat.start.tag, pat.start.props) == Success(c)
    ensures id in EnvOf(g, ChainStep(pat, 0).value).anchors <==> Kept(g, c, id)
  {
    var plan := ChainStep(pat, 0).value;
    assert plan.anchor == AnchorSetOf(c);
    AnchorIdsMean(g, plan.anchor, id);
  }

  lemma TakenIsMatched(g: GraphView, pat: PathPattern, c: Constraint, w: Walk, j: nat)
    requires ChainSteps(pat, |pat.steps|).Success? && |w| == |pat.steps| && j < |w|
    requires Constraints(pat.start.tag, pat.start.props) == Success(c)
    ensures var plans := ChainSteps(pat, |pat.steps|).value;
      |plans| == |w|
      && (Takes(g, plans, Envs(g, plans), w, j) <==> StepMatches(g, pat, w, j) && (j == 0 ==> Kept(g, c, w[0].anchor)))
  {
    var n := |pat.steps|;
    ChainPlans(pat, n, j);
    StepTaken(g, pat, j, w[j]);
    if j == 0 {
      FirstAnchors(g, pat, c, w[0].anchor);
    }
  }

  lemma TakesAllIsFound(g: GraphView, pat: PathPattern, c: Constraint, w: Walk)
    requires ChainSteps(pat, |pat.steps|).Success? && |w| == |pat.steps| && pat.steps != []
    requires Constraints(pat.start.tag, pat.start.props) == Success(c)
    ensures var plans := ChainSteps(pat, |pat.steps|).value;
      |plans| == |w| && (TakesAll(g, plans, Envs(g, plans), w) <==> ChainFound(g, pat, c, w))
  {
    var plans := ChainSteps(pat, |pat.steps|).value;
    var envs := Envs(g, plans);
    ChainLength(pat, |pat.steps|);
    if TakesAll(g, plans, envs, w) {
      forall j | 0 <= j < |w| ensures StepMatches(g, pat, w, j) && (j == 0 ==> Kept(g, c, w[0].anchor)) {
        assert Takes(g, plans, envs, w, j);
        TakenIsMatched(g, pat, c, w, j);
      }
      assert StepMatches(g, pat, w, 0);
    }
    if ChainFound(g, pat, c, w) {
      forall j | 0 <= j < |w| ensures Takes(g, plans, envs, w, j) {
        assert StepMatches(g, pat, w, j);
        TakenIsMatched(g, pat, c, w, j);
      }
    }
  }

  // The enumerated walks are exactly the found chains.
  lemma WalksAreFound(g: GraphView, pat: PathPattern, c: Constraint, w: Walk)
    requires ChainSteps(pat, |pat.steps|).Success? && pat.steps != []
    requires Constraints(pat.start.tag, pat.start.props) == Success(c)
    ensures var plans := ChainSteps(pat, |pat.steps|).value;
      w in Walks(g, plans, Envs(g, plans)) <==> |w| == |pat.steps| && ChainFound(g, pat, c, w)
  {
    var plans := ChainSteps(pat, |pat.steps|).value;
    ChainLength(pat, |pat.steps|);
    WalksMean(g, plans, Envs(g, plans), w);
    if |w| == |pat.steps| {
      TakesAllIsFound(g, pat, c, w);
    }
  }

  // No chain is enumerated twice.
  lemma ChainsOnce(g: GraphView, plans: seq<PatternPlan>)
    ensures WalksOnce(Walks(g, plans, Envs(g, plans)))
  {
    var envs := Envs(g, plans);
    forall i | 0 <= i < |envs| ensures NoRepeats(envs[i].anchors) {
      AnchorIdsMean(g, plans[i].anchor, 0);
    }
    EachWalkOnce(g, plans, envs);
  }

  // Every chain the pattern asks for is found; when the start node's anchor keeps all its
  // constraints, nothing else is.
  lemma ChainExact(g: GraphView, pat: PathPattern, c: Constraint, w: Walk)
    requires Constraints(pat.start.tag, pat.start.props) == Success(c) && |w| == |pat.steps| && w != []
    ensures ChainSolves(g, pat, w) ==> ChainFound(g, pat, c, w)
    ensures Lossless(c) ==> (ChainFound(g, pat, c, w) <==> ChainSolves(g, pat, w))
  {
    var id := w[0].anchor;
    if id < |g.nodes| {
      ConstraintsMean(pat.start, c, g.nodes[id]);
      if NodeMatches(g, pat.start, id) {
        MeetsKeeps(c, g.nodes[id]);
      }
      if Lossless(c) && Kept(g, c, id) {
        LosslessKeepsEnough(c, g.nodes[id]);
      }
    }
  }

  // Where a relationship variable overwrites the node the next step starts from, no row is left.
  lemma BrokenJoin(g: GraphView, pat: PathPattern, i: nat, base: Binding)
    requires 0 < i < |pat.steps| && ChainSteps(pat, |pat.steps|).Success? && SingleHops(pat)
    requires !Apart(NodeAt(pat, i).v, pat.steps[i - 1].rel.v)
    ensures var plans := ChainSteps(pat, |pat.steps|).value;
      RowsAfter(g, plans, Envs(g, plans), [base]) == []
  {
    var plans := ChainSteps(pat, |pat.steps|).value;
    ChainPlans(pat, |pat.steps|, i - 1);
    ChainPlans(pat, |pat.steps|, i);
    assert Overwritten(plans[i - 1], plans[i]);
    BrokenAt(g, plans, Envs(g, plans), i, base);
  }

  // Running a chain's plans over one binding gives one row per enumerated chain, in order, unless a
  // relationship variable overwrites the node the next step starts from: then there are none.
  lemma ChainRows(g: GraphView, pat: PathPattern, base: Binding)
    requires ChainSteps(pat, |pat.steps|).Success? && SingleHops(pat)
    ensures var plans := ChainSteps(pat, |pat.steps|).value;
      && AllOfLength(Walks(g, plans, Envs(g, plans)), |plans|)
      && RowsAfter(g, plans, Envs(g, plans), [base])
         == if JoinsHold(pat) then BindWalks(base, plans, Walks(g, plans, Envs(g, plans))) else []
  {
    var plans := ChainSteps(pat, |pat.steps|).value;
    WalkLength(g, plans, Envs(g, plans));
    if JoinsHold(pat) {
      ChainIsJoined(pat, |pat.steps|);
      RowsAreWalks(g, base, plans, Envs(g, plans));
    } else {
      var i :| 0 < i < |pat.steps| && !Apart(NodeAt(pat, i).v, pat.steps[i - 1].rel.v);
      BrokenJoin(g, pat, i, base);
    }
  }

  // A chain's first step is always anchored at its start: it is the plan the relationship would have on
  // its own exactly when selectivity chooses that end.
  lemma FirstStepPlan(pat: PathPattern)
    requires pat.steps != [] && ChainSteps(pat, |pat.steps|).Success?
    ensures ChainStep(pat, 0).Success?
    ensures var alone := Single(None, pat.start, pat.steps[0].rel, pat.steps[0].node);
      && alone.Success? && |ChainSteps(pat, |pat.steps|).value| == |pat.steps|
      && (ChainSteps(pat, |pat.steps|).value[0] == alone.value <==> AnchorsAtStart(StepParts(pat, 0)))
  {
    ChainPlans(pat, |pat.steps|, 0);
  }

  // ---- what the rows say ----

  function NodeOn(w: Walk, j: nat): NodeId
    requires w != [] && j <= |w|
  {
    if j == 0 then w[0].anchor else w[j - 1].peer
  }

  predicate NamesNode(b: Binding, v: Option<string>, id: NodeId) {
    v.Some? ==> v.value in b && b[v.value] == Values.Node(id)
  }

  predicate NamesEdge(b: Binding, v: Option<string>, e: EdgeId) {
    v.Some? ==> v.value in b && b[v.value] == Values.Edge(e)
  }

  // `b` names the nodes and edges of `w` as the pattern's first `|w|` steps do.
  predicate Names(b: Binding, pat: PathPattern, w: Walk)
    requires 0 < |w| <= |pat.steps|
  {
    && (forall j | 0 <= j <= |w| :: NamesNode(b, NodeAt(pat, j).v, NodeOn(w, j)))
    && (forall j | 0 <= j < |w| :: NamesEdge(b, pat.steps[j].rel.v, w[j].edge))
  }

  // The repeated variables of the first `|w|` steps stand for one node or one edge each.
  predicate FitsWalk(pat: PathPattern, w: Walk)
    requires 0 < |w| <= |pat.steps|
  {
    && (forall i, j | 0 <= i < j <= |w| :: Apart(NodeAt(pat, i).v, NodeAt(pat, j).v) || NodeOn(w, i) == NodeOn(w, j))
    && (forall i, j | 0 <= i <= |w| && 0 <= j < |w| :: Apart(NodeAt(pat, i).v, pat.steps[j].rel.v))
    && (forall i, j | 0 <= i < j < |w| :: Apart(pat.steps[i].rel.v, pat.steps[j].rel.v) || w[i].edge == w[j].edge)
  }

  lemma HopNamesNode(b: Binding, plan: PatternPlan, h: Hop, v: Option<string>, id: NodeId)
    requires plan.pathVar.None? && Apart(v, plan.relVar)
    requires Apart(v, plan.peerVar) ==> (!Apart(v, plan.anchorVar) && id == h.anchor) || NamesNode(b, v, id)
    requires Apart(v, plan.anchorVar) || id == h.anchor
    requires Apart(v, plan.peerVar) || id == h.peer
    ensures NamesNode(BindHop(b, plan, h), v, id)
  {
  }

  lemma HopNamesEdge(b: Binding, plan: PatternPlan, h: Hop, v: Option<string>, e: EdgeId)
    requires plan.pathVar.None?
    requires if Apart(v, plan.relVar) then NamesEdge(b, v, e) && Apart(v, plan.anchorVar) && Apart(v, plan.peerVar)
             else e == h.edge
    ensures NamesEdge(BindHop(b, plan, h), v, e)
  {
  }

  // Taking step `i` names its ends and its relationship and leaves the names of earlier steps.
  lemma StepNames(pat: PathPattern, i: nat, plan: PatternPlan, b: Binding, w: Walk)
    requires i < |pat.steps| && |w| == i + 1 && FitsWalk(pat, w) && Linked(w)
    requires plan.pathVar.None? && plan.anchorVar == NodeAt(pat, i).v && plan.peerVar == NodeAt(pat, i + 1).v
    requires plan.relVar == pat.steps[i].rel.v
    requires i > 0 ==> Names(b, pat, w[..i])
    ensures Names(BindHop(b, plan, w[i]), pat, w)
  {
    var b' := BindHop(b, plan, w[i]);
    assert NodeOn(w, i) == w[i].anchor && NodeOn(w, i + 1) == w[i].peer;
    forall j | 0 <= j <= i + 1 ensures NamesNode(b', NodeAt(pat, j).v, NodeOn(w, j)) {
      assert Apart(NodeAt(pat, j).v, pat.steps[i].rel.v);
      assert j < i + 1 ==> Apart(NodeAt(pat, j).v, NodeAt(pat, i + 1).v) || NodeOn(w, j) == NodeOn(w, i + 1);
      assert j < i ==> Apart(NodeAt(pat, j).v, NodeAt(pat, i).v) || NodeOn(w, j) == NodeOn(w, i);
      assert j == i + 1 ==> Apart(NodeAt(pat, i).v, NodeAt(pat, j).v) || NodeOn(w, i) == NodeOn(w, j);
      assert j < i ==> NamesNode(b, NodeAt(pat, j).v, NodeOn(w[..i], j));
      HopNamesNode(b, plan, w[i], NodeAt(pat, j).v, NodeOn(w, j));
    }
    forall j | 0 <= j <= i ensures NamesEdge(b', pat.steps[j].rel.v, w[j].edge) {
      if j < i {
        assert NamesEdge(b, pat.steps[j].rel.v, w[..i][j].edge);
        assert Apart(pat.steps[j].rel.v, pat.steps[i].rel.v) || w[j].edge == w[i].edge;
        assert Apart(NodeAt(pat, i).v, pat.steps[j].rel.v) && Apart(NodeAt(pat, i + 1).v, pat.steps[j].rel.v);
      }
      HopNamesEdge(b, plan, w[i], pat.steps[j].rel.v, w[j].edge);
    }
  }

  predicate Linked(w: Walk) {
    forall j | 0 < j < |w| :: w[j].anchor == w[j - 1].peer
  }

  lemma {:induction false} FittingWalkIsNamed(pat: PathPattern, n: nat, base: Binding, w: Walk)
    requires 0 < n == |w| <= |pat.steps| && ChainSteps(pat, n).Success? && FitsWalk(pat, w) && Linked(w)
    ensures |ChainSteps(pat, n).value| == n && Names(BindWalk(base, ChainSteps(pat, n).value, w), pat, w)
    decreases n
  {
    var plans := ChainSteps(pat, n).value;
    ChainLength(pat, n);
    ChainPlans(pat, n, n - 1);
    var v := w[..n - 1];
    var b := BindWalk(base, plans[..n - 1], v);
    if n > 1 {
      assert forall j | 0 <= j < n :: NodeOn(v, j) == NodeOn(w, j);
      assert Linked(v) && FitsWalk(pat, v);
      FittingWalkIsNamed(pat, n - 1, base, v);
    }
    StepNames(pat, n - 1, plans[n - 1], b, w);
  }

  // One variable has one value.
  lemma NamedWalkFits(b: Binding, pat: PathPattern, w: Walk)
    requires 0 < |w| <= |pat.steps| && Names(b, pat, w)
    ensures FitsWalk(pat, w)
  {
    forall i, j | 0 <= i < j <= |w| && !Apart(NodeAt(pat, i).v, NodeAt(pat, j).v)
      ensures NodeOn(w, i) == NodeOn(w, j)
    {
      assert NamesNode(b, NodeAt(pat, i).v, NodeOn(w, i)) && NamesNode(b, NodeAt(pat, j).v, NodeOn(w, j));
    }
    forall i, j | 0 <= i <= |w| && 0 <= j < |w| ensures Apart(NodeAt(pat, i).v, pat.steps[j].rel.v) {
      assert NamesNode(b, NodeAt(pat, i).v, NodeOn(w, i)) && NamesEdge(b, pat.steps[j].rel.v, w[j].edge);
    }
    forall i, j | 0 <= i < j < |w| && !Apart(pat.steps[i].rel.v, pat.steps[j].rel.v)
      ensures w[i].edge == w[j].edge
    {
      assert NamesEdge(b, pat.steps[i].rel.v, w[i].edge) && NamesEdge(b, pat.steps[j].rel.v, w[j].edge);
    }
  }

  // A row of a chain names the chain it stands for exactly when the chain fits its variables: nothing
  // joins on a variable that is written again.
  lemma WalkIsNamed(pat: PathPattern, n: nat, base: Binding, w: Walk)
    requires 0 < n == |w| <= |pat.steps| && ChainSteps(pat, n).Success? && Linked(w)
    ensures |ChainSteps(pat, n).value| == n
    ensures Names(BindWalk(base, ChainSteps(pat, n).value, w), pat, w) <==> FitsWalk(pat, w)
    ensures Separate(pat) ==> FitsWalk(pat, w)
  {
    ChainLength(pat, n);
    if FitsWalk(pat, w) {
      FittingWalkIsNamed(pat, n, base, w);
    }
    if Names(BindWalk(base, ChainSteps(pat, n).value, w), pat, w) {
      NamedWalkFits(BindWalk(base, ChainSteps(pat, n).value, w), pat, w);
    }
  }
}
