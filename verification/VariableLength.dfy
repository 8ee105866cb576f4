// A variable-length relationship `(a)-[*lo..hi]->(b)` without a path binding against its lowered plan:
// which pairs of ends it finds, and when these are the written ones (crates/cgx-cql/src/eval.rs,
// expand_var_length and peer_goal_ids).
module VariableLength {
  import opened Prelude
  import opened Graph
  import Values
  import opened Ast
  import opened CodeGraph
  import opened Lowering
  import opened BindingStream
  import opened Evaluation
  import opened Meaning
  import opened Relationships
  import opened Anchoring
  import opened Solutions
  import opened SingleRows
  import SymbolPatterns

  // ---- the enumerated pairs ----

  datatype Pair = Pair(anchor: NodeId, peer: NodeId)

  function PairsAt(anchor: NodeId, peers: seq<NodeId>): seq<Pair> {
    seq(|peers|, i requires 0 <= i < |peers| => Pair(anchor, peers[i]))
  }

  function PairsFrom(g: GraphView, plan: PatternPlan, env: Env, anchors: seq<NodeId>): seq<Pair>
    requires plan.cardinality.VarLength?
  {
    if anchors == [] then []
    else
      var a := anchors[|anchors| - 1];
      PairsFrom(g, plan, env, anchors[..|anchors| - 1]) + PairsAt(a, PeersAt(g, plan, env, a))
  }

  function PairRows(plan: PatternPlan, base: Binding, ps: seq<Pair>): seq<Binding> {
    seq(|ps|, i requires 0 <= i < |ps| => BindEnds(base, plan, ps[i].anchor, ps[i].peer))
  }

  lemma PairRowsAppend(plan: PatternPlan, base: Binding, s: seq<Pair>, t: seq<Pair>)
    ensures PairRows(plan, base, s + t) == PairRows(plan, base, s) + PairRows(plan, base, t)
  {
  }

  lemma PairRowsAt(plan: PatternPlan, base: Binding, anchor: NodeId, peers: seq<NodeId>)
    ensures PairRows(plan, base, PairsAt(anchor, peers)) == PeerRows(plan, base, anchor, peers)
  {
  }

  lemma {:induction false} RowsArePairs(g: GraphView, plan: PatternPlan, env: Env, base: Binding, anchors: seq<NodeId>)
    requires plan.cardinality.VarLength?
    ensures RowsOver(g, plan, env, base, anchors) == PairRows(plan, base, PairsFrom(g, plan, env, anchors))
    decreases |anchors|
  {
    if anchors != [] {
      var init, a := anchors[..|anchors| - 1], anchors[|anchors| - 1];
      RowsArePairs(g, plan, env, base, init);
      PairRowsAt(plan, base, a, PeersAt(g, plan, env, a));
      PairRowsAppend(plan, base, PairsFrom(g, plan, env, init), PairsAt(a, PeersAt(g, plan, env, a)));
    }
  }

  lemma {:induction false} PeersOverMean(env: Env, reached: seq<NodeId>, n: NodeId)
    ensures n in PeersOver(env, reached) <==> n in reached && n in env.goals
    decreases |reached|
  {
    if reached != [] {
      PeersOverMean(env, reached[..|reached| - 1], n);
      assert reached == reached[..|reached| - 1] + [reached[|reached| - 1]];
    }
  }

  predicate Rises(s: seq<NodeId>) {
    forall i, j | 0 <= i < j < |s| :: s[i] < s[j]
  }

  lemma {:induction false} PeersOverRise(env: Env, reached: seq<NodeId>)
    requires Rises(reached)
    ensures Rises(PeersOver(env, reached))
    decreases |reached|
  {
    if reached != [] {
      var init := reached[..|reached| - 1];
      PeersOverRise(env, init);
      var was := PeersOver(env, init);
      forall i | 0 <= i < |was| ensures was[i] < reached[|reached| - 1] {
        PeersOverMean(env, init, was[i]);
        assert was[i] in init;
      }
    }
  }

  predicate PairsOnce(ps: seq<Pair>) {
    forall i, j | 0 <= i < j < |ps| :: ps[i] != ps[j]
  }

  predicate Reaches(g: GraphView, plan: PatternPlan, x: Pair)
    requires plan.cardinality.VarLength?
  {
    x.peer < |g.nodes| && ReachedBetween(g, plan.direction, plan.filter, x.anchor, x.peer, plan.cardinality.min,
                                         EffectiveMaxDepth(plan.cardinality.max))
  }

  lemma PairsAtMean(g: GraphView, plan: PatternPlan, env: Env, a: NodeId, x: Pair)
    requires plan.cardinality.VarLength?
    ensures var ps := PairsAt(a, PeersAt(g, plan, env, a));
      && (x in ps <==> x.anchor == a && x.peer in env.goals && Reaches(g, plan, x))
      && PairsOnce(ps)
  {
    var c := plan.cardinality;
    var reached := ReachableWithin(g, plan.direction, plan.filter, a, c.min, EffectiveMaxDepth(c.max));
    var peers := PeersAt(g, plan, env, a);
    var ps := PairsAt(a, peers);
    PeersOverMean(env, reached, x.peer);
    PeersOverRise(env, reached);
    if x.anchor == a && x.peer in peers {
      var i :| 0 <= i < |peers| && peers[i] == x.peer;
      assert ps[i] == x;
    }
  }

  lemma {:induction false} PairsFromMean(g: GraphView, plan: PatternPlan, env: Env, anchors: seq<NodeId>, x: Pair)
    requires plan.cardinality.VarLength?
    ensures x in PairsFrom(g, plan, env, anchors) <==>
      x.anchor in anchors && x.peer in env.goals && Reaches(g, plan, x)
    decreases |anchors|
  {
    if anchors != [] {
      var init, a := anchors[..|anchors| - 1], anchors[|anchors| - 1];
      assert anchors == init + [a];
      PairsFromMean(g, plan, env, init, x);
      PairsAtMean(g, plan, env, a, x);
    }
  }

  lemma {:induction false} PairsFromOnce(g: GraphView, plan: PatternPlan, env: Env, anchors: seq<NodeId>)
    requires plan.cardinality.VarLength?
    requires forall i, j | 0 <= i < j < |anchors| :: anchors[i] != anchors[j]
    ensures PairsOnce(PairsFrom(g, plan, env, anchors))
    decreases |anchors|
  {
    if anchors != [] {
      var init, a := anchors[..|anchors| - 1], anchors[|anchors| - 1];
      var was, more := PairsFrom(g, plan, env, init), PairsAt(a, PeersAt(g, plan, env, a));
      PairsFromOnce(g, plan, env, init);
      PairsAtMean(g, plan, env, a, Pair(a, a));
      forall i, j | 0 <= i < |was| && 0 <= j < |more| ensures was[i] != more[j] {
        PairsFromMean(g, plan, env, init, was[i]);
      }
    }
  }

  // ---- what the pattern asks for ----

  // The written relationship leads from `s` to `t` over one edge.
  predicate Leads(g: GraphView, rel: RelPat, s: NodeId, t: NodeId) {
    exists e | 0 <= e < |g.edges| :: EdgeMatches(g, rel, Solution(s, e, t))
  }

  predicate Route(g: GraphView, rel: RelPat, w: seq<NodeId>) {
    && w != [] && (forall i | 0 <= i < |w| :: w[i] < |g.nodes|)
    && forall i | 0 < i < |w| :: Leads(g, rel, w[i - 1], w[i])
  }

  // Some walk of `k` edges along the written relationship.
  ghost predicate Routed(g: GraphView, rel: RelPat, s: NodeId, t: NodeId, k: nat) {
    exists w | |w| == k + 1 :: Route(g, rel, w) && w[0] == s && w[k] == t
  }

  // A lower bound of 0 asks for no less than 1 does.
  function Low(l: VarLen): nat {
    if l.min.Some? && l.min.value != 0 then l.min.value else 1
  }

  function High(l: VarLen): nat {
    EffectiveMaxDepth(l.max)
  }

  ghost predicate Connects(g: GraphView, rel: RelPat, l: VarLen, s: NodeId, t: NodeId) {
    exists k | Low(l) <= k <= High(l) :: Routed(g, rel, s, t, k)
  }

  ghost predicate PairSolves(g: GraphView, start: NodePat, rel: RelPat, end: NodePat, l: VarLen, s: NodeId, t: NodeId) {
    NodeMatches(g, start, s) && NodeMatches(g, end, t) && Connects(g, rel, l, s, t)
  }

  // ---- what evaluation checks ----

  predicate ByName(c: Constraint) {
    HasName(c.props) && FirstName(c.props).Str?
  }

  // A peer with a name is looked up by that name alone, as an anchor is; any other by all it was given.
  predicate GoalKeeps(c: Constraint, n: NodeRecord) {
    if ByName(c) then Keeps(AnchorSetOf(c), n) else Meets(c, n)
  }

  predicate IsGoal(g: GraphView, c: Constraint, id: NodeId) {
    id < |g.nodes| && GoalKeeps(c, g.nodes[id])
  }

  lemma GoalsMean(g: GraphView, plan: PatternPlan, id: NodeId)
    ensures id in Goals(g, plan) <==> IsGoal(g, Constraint(plan.peerProps, plan.peerKinds), id)
  {
  }

  ghost predicate PairFound(g: GraphView, rel: RelPat, l: VarLen, p: Parts, s: NodeId, t: NodeId) {
    var a, b := if AnchorsAtStart(p) then s else t, if AnchorsAtStart(p) then t else s;
    Kept(g, AnchorOf(p), a) && IsGoal(g, PeerOf(p), b) && Connects(g, rel, l, s, t)
  }

  // ---- reached nodes are routed ----

  // An anchored walk read in the written order.
  function Written(p: Parts, x: Pair): Pair {
    if AnchorsAtStart(p) then x else Pair(x.peer, x.anchor)
  }

  lemma StepLeads(g: GraphView, start: NodePat, rel: RelPat, end: NodePat, p: Parts, x: Pair)
    requires PartsOf(start, rel, end) == Success(p)
    ensures var plan := PlanOf(None, start, rel, end, p);
      StepTo(g, plan.direction, plan.filter, x.anchor, x.peer)
      <==> x.peer < |g.nodes| && Leads(g, rel, Written(p, x).anchor, Written(p, x).peer)
  {
    var plan, y := PlanOf(None, start, rel, end, p), Written(p, x);
    forall e | 0 <= e < |g.edges|
      ensures Near(g.edges[e], plan.direction) == x.anchor && Far(g.edges[e], plan.direction) == x.peer
              && Admits(plan.filter, g.edges[e])
              <==> EdgeMatches(g, rel, Solution(y.anchor, e, y.peer))
    {
      WalkMeans(g, None, start, rel, end, p, Solution(y.anchor, e, y.peer));
    }
  }

  predicate StoredRoute(g: GraphView, d: Direction, f: EdgeFilter, w: seq<NodeId>) {
    && w != [] && (forall i | 0 <= i < |w| :: w[i] < |g.nodes|)
    && forall i | 0 < i < |w| :: StepTo(g, d, f, w[i - 1], w[i])
  }

  lemma {:induction false} ReachedByRoute(g: GraphView, d: Direction, f: EdgeFilter, a: NodeId, b: NodeId, k: nat)
    returns (w: seq<NodeId>)
    requires a < |g.nodes| && ReachedIn(g, d, f, a, b, k)
    ensures |w| == k + 1 && StoredRoute(g, d, f, w) && w[0] == a && w[k] == b
    decreases k
  {
    if k == 0 {
      w := [a];
    } else {
      var m: nat :| m < |g.nodes| && ReachedIn(g, d, f, a, m, k - 1) && StepTo(g, d, f, m, b);
      var v := ReachedByRoute(g, d, f, a, m, k - 1);
      w := v + [b];
    }
  }

  lemma {:induction false} RouteReaches(g: GraphView, d: Direction, f: EdgeFilter, w: seq<NodeId>)
    requires StoredRoute(g, d, f, w)
    ensures ReachedIn(g, d, f, w[0], w[|w| - 1], |w| - 1)
    decreases |w|
  {
    if |w| > 1 {
      var v := w[..|w| - 1];
      RouteReaches(g, d, f, v);
      assert StepTo(g, d, f, v[|v| - 1], w[|w| - 1]);
    }
  }

  function Turned(w: seq<NodeId>): (v: seq<NodeId>)
    ensures |v| == |w| && forall i | 0 <= i < |w| :: v[i] == w[|w| - 1 - i]
  {
    seq(|w|, i requires 0 <= i < |w| => w[|w| - 1 - i])
  }

  function WrittenRoute(p: Parts, w: seq<NodeId>): seq<NodeId> {
    if AnchorsAtStart(p) then w else Turned(w)
  }

  lemma TurnedRoute(g: GraphView, rel: RelPat, w: seq<NodeId>)
    ensures Route(g, rel, Turned(w)) <==>
      && w != [] && (forall i | 0 <= i < |w| :: w[i] < |g.nodes|)
      && forall i | 0 < i < |w| :: Leads(g, rel, w[i], w[i - 1])
  {
    var v, n := Turned(w), |w|;
    if Route(g, rel, v) {
      forall i | 0 <= i < n ensures w[i] < |g.nodes| {
        assert v[n - 1 - i] == w[i];
      }
      forall i | 0 < i < n ensures Leads(g, rel, w[i], w[i - 1]) {
        assert Leads(g, rel, v[n - i - 1], v[n - i]);
      }
    }
    if (forall i | 0 <= i < n :: w[i] < |g.nodes|) && forall i | 0 < i < n :: Leads(g, rel, w[i], w[i - 1]) {
      forall i | 0 < i < n ensures Leads(g, rel, v[i - 1], v[i]) {
        assert Leads(g, rel, w[n - i], w[n - i - 1]);
      }
    }
  }

  // A stored route is a written one, or a written one turned around.
  lemma StoredIsWritten(g: GraphView, start: NodePat, rel: RelPat, end: NodePat, p: Parts, w: seq<NodeId>)
    requires PartsOf(start, rel, end) == Success(p)
    ensures var plan := PlanOf(None, start, rel, end, p);
      StoredRoute(g, plan.direction, plan.filter, w) <==> Route(g, rel, WrittenRoute(p, w))
  {
    var plan := PlanOf(None, start, rel, end, p);
    TurnedRoute(g, rel, w);
    forall i | 0 < i < |w|
      ensures StepTo(g, plan.direction, plan.filter, w[i - 1], w[i])
        <==> w[i] < |g.nodes| && if AnchorsAtStart(p) then Leads(g, rel, w[i - 1], w[i])
                                 else Leads(g, rel, w[i], w[i - 1])
    {
      StepLeads(g, start, rel, end, p, Pair(w[i - 1], w[i]));
    }
  }

  lemma ReachedIsRouted(g: GraphView, start: NodePat, rel: RelPat, end: NodePat, p: Parts, x: Pair, k: nat)
    requires PartsOf(start, rel, end) == Success(p) && x.anchor < |g.nodes|
    ensures var plan := PlanOf(None, start, rel, end, p);
      ReachedIn(g, plan.direction, plan.filter, x.anchor, x.peer, k)
      <==> Routed(g, rel, Written(p, x).anchor, Written(p, x).peer, k)
  {
    var plan, y := PlanOf(None, start, rel, end, p), Written(p, x);
    if ReachedIn(g, plan.direction, plan.filter, x.anchor, x.peer, k) {
      var w := ReachedByRoute(g, plan.direction, plan.filter, x.anchor, x.peer, k);
      StoredIsWritten(g, start, rel, end, p, w);
      var v := WrittenRoute(p, w);
      assert |v| == k + 1 && v[0] == y.anchor && v[k] == y.peer;
    }
    if Routed(g, rel, y.anchor, y.peer, k) {
      var v :| |v| == k + 1 && Route(g, rel, v) && v[0] == y.anchor && v[k] == y.peer;
      var w := WrittenRoute(p, v);
      assert WrittenRoute(p, w) == v;
      StoredIsWritten(g, start, rel, end, p, w);
      RouteReaches(g, plan.direction, plan.filter, w);
    }
  }

  lemma ReachesIsConnects(g: GraphView, start: NodePat, rel: RelPat, end: NodePat, p: Parts, l: VarLen, x: Pair)
    requires PartsOf(start, rel, end) == Success(p) && rel.varLen == Some(l) && x.anchor < |g.nodes|
    ensures Reaches(g, PlanOf(None, start, rel, end, p), x)
      <==> x.peer < |g.nodes| && Connects(g, rel, l, Written(p, x).anchor, Written(p, x).peer)
  {
    var plan, y := PlanOf(None, start, rel, end, p), Written(p, x);
    forall k: nat
      ensures ReachedIn(g, plan.direction, plan.filter, x.anchor, x.peer, k) <==> Routed(g, rel, y.anchor, y.peer, k)
    {
      ReachedIsRouted(g, start, rel, end, p, x, k);
    }
    if x.peer < |g.nodes| && Connects(g, rel, l, y.anchor, y.peer) {
      var k :| Low(l) <= k <= High(l) && Routed(g, rel, y.anchor, y.peer, k);
      assert ReachedIn(g, plan.direction, plan.filter, x.anchor, x.peer, k);
    }
  }

  // Without a cap, a variable-length pattern gives one row for each pair of a kept anchor and a goal
  // that the written relationship connects, and no other.
  lemma VarLengthRows(g: GraphView, start: NodePat, rel: RelPat, end: NodePat, p: Parts, l: VarLen, base: Binding)
    returns (ps: seq<Pair>)
    requires PartsOf(start, rel, end) == Success(p) && rel.varLen == Some(l)
    ensures var plan := PlanOf(None, start, rel, end, p);
      AllRows(g, plan, EnvOf(g, plan), [base]) == PairRows(plan, base, ps)
    ensures PairsOnce(ps)
    ensures forall x :: x in ps <==> PairFound(g, rel, l, p, Written(p, x).anchor, Written(p, x).peer)
  {
    var plan := PlanOf(None, start, rel, end, p);
    var env := EnvOf(g, plan);
    var anchors := AnchorIds(g, plan.anchor);
    ps := PairsFrom(g, plan, env, anchors);
    UnfoldOneRow(g, plan, env, base);
    RowsArePairs(g, plan, env, base, anchors);
    AnchorIdsMean(g, plan.anchor, 0);
    PairsFromOnce(g, plan, env, anchors);
    forall x ensures x in ps <==> PairFound(g, rel, l, p, Written(p, x).anchor, Written(p, x).peer) {
      PairsFromMean(g, plan, env, anchors, x);
      PairIsFound(g, start, rel, end, p, l, x);
    }
  }

  lemma PairIsFound(g: GraphView, start: NodePat, rel: RelPat, end: NodePat, p: Parts, l: VarLen, x: Pair)
    requires PartsOf(start, rel, end) == Success(p) && rel.varLen == Some(l)
    ensures var plan := PlanOf(None, start, rel, end, p);
      x.anchor in AnchorIds(g, plan.anchor) && x.peer in Goals(g, plan) && Reaches(g, plan, x)
      <==> PairFound(g, rel, l, p, Written(p, x).anchor, Written(p, x).peer)
  {
    var plan := PlanOf(None, start, rel, end, p);
    AnchorIdsMean(g, plan.anchor, x.anchor);
    assert plan.anchor == AnchorSetOf(AnchorOf(p));
    GoalsMean(g, plan, x.peer);
    assert Constraint(plan.peerProps, plan.peerKinds) == PeerOf(p);
    if x.anchor < |g.nodes| {
      ReachesIsConnects(g, start, rel, end, p, l, x);
    }
  }

  // ---- when the pairs are the written ones ----

  // What is looked up at a peer implies all that was asked of it.
  ghost predicate GoalLossless(c: Constraint) {
    ByName(c) ==> Lossless(c)
  }

  lemma GoalIsLossless(c: Constraint)
    requires WellFormed(c)
    ensures GoalLossless(c) <==> forall n :: GoalKeeps(c, n) ==> Meets(c, n)
  {
    AnchorSetIsLossless(c);
    if ByName(c) {
      assert forall n :: GoalKeeps(c, n) <==> Keeps(AnchorSetOf(c), n);
      assert KeepsEnough(c) <==> forall n :: GoalKeeps(c, n) ==> Meets(c, n);
    }
  }

  // No pair the pattern asks for is lost.
  lemma NoPairLost(g: GraphView, start: NodePat, rel: RelPat, end: NodePat, l: VarLen, p: Parts, s: NodeId, t: NodeId)
    requires PartsOf(start, rel, end) == Success(p) && PairSolves(g, start, rel, end, l, s, t)
    ensures PairFound(g, rel, l, p, s, t)
  {
    ConstraintsMean(start, p.start, g.nodes[s]);
    ConstraintsMean(end, p.end, g.nodes[t]);
    MeetsKeeps(p.start, g.nodes[s]);
    MeetsKeeps(p.end, g.nodes[t]);
  }

  ghost predicate PairsAlwaysExact(start: NodePat, rel: RelPat, end: NodePat, l: VarLen, p: Parts) {
    forall g, s: NodeId, t: NodeId :: PairFound(g, rel, l, p, s, t) ==> PairSolves(g, start, rel, end, l, s, t)
  }

  // A line of `k` edges that the written relationship leads along.
  lemma {:induction false} SomeRoad(start: NodePat, rel: RelPat, end: NodePat, p: Parts, k: nat)
    returns (es: seq<EdgeRecord>)
    requires PartsOf(start, rel, end) == Success(p)
    ensures |es| == k && forall j | 0 <= j < k :: RelHolds(rel, es[j]) && Runs(rel, es[j], j, j + 1)
    decreases k
  {
    es := [];
    if k > 0 {
      var was := SomeRoad(start, rel, end, p, k - 1);
      var e := SomeEdge(rel, start, end, p, k - 1, k);
      es := was + [e];
    }
  }

  lemma RoadConnects(g: GraphView, rel: RelPat, l: VarLen, k: nat)
    requires |g.nodes| == k + 1 && |g.edges| == k && Low(l) <= k <= High(l)
    requires forall j | 0 <= j < k :: RelHolds(rel, g.edges[j]) && Runs(rel, g.edges[j], j, j + 1)
    ensures Connects(g, rel, l, 0, k)
  {
    var w := seq(k + 1, (i: nat) => i);
    forall i | 0 < i < |w| ensures Leads(g, rel, w[i - 1], w[i]) {
      assert EdgeMatches(g, rel, Solution(i - 1, i - 1, i));
    }
    assert Route(g, rel, w) && w[0] == 0 && w[k] == k;
    assert Routed(g, rel, 0, k, k);
  }

  // A node each end keeps, one of them not what was asked for, makes an extra pair.
  lemma ExtraPair(start: NodePat, rel: RelPat, end: NodePat, l: VarLen, p: Parts, na: NodeRecord, np: NodeRecord)
    requires PartsOf(start, rel, end) == Success(p) && Low(l) <= High(l)
    requires Keeps(AnchorSetOf(AnchorOf(p)), na) && GoalKeeps(PeerOf(p), np)
    requires !Meets(AnchorOf(p), na) || !Meets(PeerOf(p), np)
    ensures !PairsAlwaysExact(start, rel, end, l, p)
  {
    var k := Low(l);
    var es := SomeRoad(start, rel, end, p, k);
    var first, last := if AnchorsAtStart(p) then na else np, if AnchorsAtStart(p) then np else na;
    var g := GraphView(seq(k + 1, i => if i == k then last else first), es);
    RoadConnects(g, rel, l, k);
    assert g.nodes[0] == first && g.nodes[k] == last;
    ConstraintsMean(start, p.start, first);
    ConstraintsMean(end, p.end, last);
    assert PairFound(g, rel, l, p, 0, k) && !PairSolves(g, start, rel, end, l, 0, k);
  }

  lemma AnchorInhabited(c: Constraint) returns (n: NodeRecord)
    requires WellFormed(c)
    ensures Keeps(AnchorSetOf(c), n)
  {
    if ByName(c) {
      var fqn := NameInhabited(FirstName(c.props).text);
      n := NodeRecord(Function, fqn, "", 0);
    } else {
      n := NodeRecord(if c.kinds.Some? then c.kinds.value[0] else Function, "", "", 0);
    }
  }

  lemma LosslessPair(g: GraphView, start: NodePat, rel: RelPat, end: NodePat, l: VarLen, p: Parts, s: NodeId, t: NodeId)
    requires PartsOf(start, rel, end) == Success(p) && PairFound(g, rel, l, p, s, t)
    requires Lossless(AnchorOf(p)) && (forall n :: GoalKeeps(PeerOf(p), n) ==> Meets(PeerOf(p), n))
    ensures PairSolves(g, start, rel, end, l, s, t)
  {
    ConstraintsMean(start, p.start, g.nodes[s]);
    ConstraintsMean(end, p.end, g.nodes[t]);
    LosslessKeepsEnough(AnchorOf(p), g.nodes[if AnchorsAtStart(p) then s else t]);
  }

  // Exactness on every graph, decided by the pattern alone: unless the bounds admit no length or
  // nothing can stand at the peer, the anchor must keep all it was given and a peer looked up by name
  // must be asked for nothing more.
  lemma PairExactnessIsDecided(start: NodePat, rel: RelPat, end: NodePat, l: VarLen, p: Parts)
    requires PartsOf(start, rel, end) == Success(p)
    ensures PairsAlwaysExact(start, rel, end, l, p) <==>
      || High(l) < Low(l)
      || (forall n :: !GoalKeeps(PeerOf(p), n))
      || (Lossless(AnchorOf(p)) && GoalLossless(PeerOf(p)))
  {
    var a, b := AnchorOf(p), PeerOf(p);
    ConstraintsWellFormed(start.tag, start.props);
    ConstraintsWellFormed(end.tag, end.props);
    AnchorSetIsLossless(a);
    GoalIsLossless(b);
    if Lossless(a) && GoalLossless(b) {
      forall g, s: NodeId, t: NodeId | PairFound(g, rel, l, p, s, t) ensures PairSolves(g, start, rel, end, l, s, t) {
        LosslessPair(g, start, rel, end, l, p, s, t);
      }
    } else if Low(l) <= High(l) && exists n :: GoalKeeps(b, n) {
      if !Lossless(a) {
        var na :| Keeps(AnchorSetOf(a), na) && !Meets(a, na);
        var np :| GoalKeeps(b, np);
        ExtraPair(start, rel, end, l, p, na, np);
      } else {
        var na := AnchorInhabited(a);
        var np :| GoalKeeps(b, np) && !Meets(b, np);
        ExtraPair(start, rel, end, l, p, na, np);
      }
    }
  }

  // `(b {name: "g"})<-[*]-(a:function {name: "f"})` also finds the method `f` that calls `g`.
  lemma GoalLabelIgnored(l: VarLen, p: Parts)
    requires PartsOf(Named("b", None, "g"), CalledBy(l), Named("a", Some("function"), "f")) == Success(p)
    requires Low(l) == 1 <= High(l)
    ensures PairFound(OneCall(), CalledBy(l), l, p, 1, 0)
    ensures !PairSolves(OneCall(), Named("b", None, "g"), CalledBy(l), Named("a", Some("function"), "f"), l, 1, 0)
  {
    NamedConstraint(None, "g");
    NamedConstraint(Some("function"), "f");
    KeptByName(p.end);
    NotAFunction();
    KeptByItsName(p.start);
    CallConnects(l);
  }

  lemma CallConnects(l: VarLen)
    requires Low(l) == 1 <= High(l)
    ensures Connects(OneCall(), CalledBy(l), l, 1, 0)
  {
    var g, rel, w: seq<NodeId> := OneCall(), CalledBy(l), [1, 0];
    assert EdgeMatches(g, rel, Solution(1, 0, 0));
    assert Leads(g, rel, w[0], w[1]);
    assert Route(g, rel, w);
    assert Routed(g, rel, 1, 0, 1);
  }

  function CalledBy(l: VarLen): RelPat {
    RelPat(None, Backward, [], Some(l), [])
  }

  lemma KeptByItsName(c: Constraint)
    requires c == Constraint([NodeProp(FqnField, Values.Str("g"))], None)
    ensures Kept(OneCall(), c, 1)
  {
    assert c.props[0] == NodeProp(FqnField, Values.Str("g")) && FirstName(c.props) == Values.Str("g");
    assert AnchorSetOf(c) == Symbol(NamePattern("g"));
    assert SymbolPatterns.SepLen("g", 0) == 0;
  }
}
