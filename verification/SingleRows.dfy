// The rows of a single-relationship pattern: one per enumerated solution, naming its nodes and its
// edge; a `path =` binding lists the nodes from the anchored end (crates/cgx-cql/src/lower.rs,
// lower_single; crates/cgx-cql/src/eval.rs, expand_single_hop).
module SingleRows {
  import opened Prelude
  import opened Graph
  import Values
  import opened Ast
  import opened CodeGraph
  import opened Lowering
  import opened BindingStream
  import opened Evaluation
  import opened Meaning
  import opened SymbolPatterns
  import Anchoring
  import opened Hops
  import opened Solutions
  import opened ChainMeaning

  // The pattern's variables do not get in each other's way: only a loop may have one variable at
  // both ends, and edges and paths need variables of their own.
  predicate Fits(pathVar: Option<string>, start: NodePat, rel: RelPat, end: NodePat, x: Solution) {
    && (start.v.Some? && start.v == end.v ==> x.start == x.end)
    && Apart(start.v, rel.v) && Apart(end.v, rel.v)
    && Apart(start.v, pathVar) && Apart(end.v, pathVar) && Apart(rel.v, pathVar)
  }

  function RowOf(base: Binding, plan: PatternPlan, p: Parts, x: Solution): Binding {
    BindHop(base, plan, HopOf(p, x))
  }

  // One row per enumerated solution, in order, for every input binding.
  lemma RowsOfOne(g: GraphView, plan: PatternPlan, p: Parts, base: Binding)
    requires plan.cardinality.SingleHop? && plan.anchorBoundVar.None?
    ensures var xs := Enumerated(g, plan, p);
      AllRows(g, plan, EnvOf(g, plan), [base])
      == seq(|xs|, i requires 0 <= i < |xs| => RowOf(base, plan, p, xs[i]))
  {
    var env := EnvOf(g, plan);
    var anchors := AnchorIds(g, plan.anchor);
    var hs := HopsFrom(g, plan, env, anchors);
    RowsAreHops(g, plan, env, base, anchors);
    assert Anchors(plan, env, base) == anchors;
    UnfoldOneRow(g, plan, env, base);
    HopRowsAreRows(plan, p, base, hs);
  }

  lemma HopRowsAreRows(plan: PatternPlan, p: Parts, base: Binding, hs: seq<Hop>)
    ensures HopRows(plan, base, hs) == seq(|hs|, i requires 0 <= i < |hs| => RowOf(base, plan, p, Oriented(p, hs[i])))
  {
    forall i | 0 <= i < |hs| ensures HopOf(p, Oriented(p, hs[i])) == hs[i] {
    }
  }

  lemma UnfoldOneRow(g: GraphView, plan: PatternPlan, env: Env, base: Binding)
    ensures AllRows(g, plan, env, [base]) == RowsOver(g, plan, env, base, Anchors(plan, env, base))
  {
    assert [base][..0] == [];
    assert AllRows(g, plan, env, []) == [];
  }

  // The row names the solution exactly when the variables fit it, and leaves all others alone.
  lemma RowNames(pathVar: Option<string>, start: NodePat, rel: RelPat, end: NodePat, p: Parts, base: Binding,
                 x: Solution)
    ensures var b := RowOf(base, PlanOf(pathVar, start, rel, end, p), p, x);
      && (NamesNode(b, start.v, x.start) && NamesNode(b, end.v, x.end) && NamesEdge(b, rel.v, x.edge)
          <==> Fits(pathVar, start, rel, end, x))
      && forall v | v in base && Some(v) != start.v && Some(v) != end.v && Some(v) != rel.v && Some(v) != pathVar ::
           v in b && b[v] == base[v]
  {
  }

  // A variable written at both ends is bound to the far end alone; nothing makes the ends agree.
  lemma RepeatedVariable(v: string, start: NodePat, rel: RelPat, end: NodePat, p: Parts, base: Binding, x: Solution)
    requires start.v == end.v == Some(v) && rel.v != Some(v)
    ensures var b := RowOf(base, PlanOf(None, start, rel, end, p), p, x);
      && v in b && b[v] == Values.Node(HopOf(p, x).peer)
      && (NamesNode(b, start.v, x.start) && NamesNode(b, end.v, x.end) <==> x.start == x.end)
  {
  }

  // A path binding runs from the anchored end: in the written order exactly when that is the start
  // node, or the edge is a loop.
  lemma PathRunsFromAnchor(pathVar: string, start: NodePat, rel: RelPat, end: NodePat, p: Parts, base: Binding,
                           x: Solution)
    ensures var b := RowOf(base, PlanOf(Some(pathVar), start, rel, end, p), p, x);
      && pathVar in b && b[pathVar].Path? && b[pathVar].edges == [x.edge]
      && (b[pathVar].nodes == [x.start, x.end] <==> AnchorsAtStart(p) || x.start == x.end)
      && (!AnchorsAtStart(p) ==> b[pathVar].nodes == [x.end, x.start])
  {
    assert [x.end, x.start][0] == x.end && [x.start, x.end][0] == x.start;
  }

  // `p = ()-[..]->(b {name: ".."})` is anchored at `b`, so its path runs backwards.
  lemma ReversedPath(pathVar: string, name: string, rel: RelPat, p: Parts, base: Binding, x: Solution)
    requires PartsOf(Bare(), rel, Named("b", None, name)) == Success(p) && x.start != x.end
    ensures var b := RowOf(base, PlanOf(Some(pathVar), Bare(), rel, Named("b", None, name), p), p, x);
      pathVar in b && b[pathVar] == Values.Path([x.end, x.start], [x.edge])
  {
    NamedConstraint(None, name);
    PathRunsFromAnchor(pathVar, Bare(), rel, Named("b", None, name), p, base, x);
  }

  function Bare(): NodePat {
    NodePat(None, None, [])
  }

  function Named(v: string, tag: Option<string>, name: string): NodePat {
    NodePat(Some(v), tag, [PropEntry("name", Values.Str(name))])
  }

  lemma NamedConstraint(tag: Option<string>, name: string)
    requires tag.Some? ==> tag.value == "function"
    ensures Constraints(tag, [PropEntry("name", Values.Str(name))])
         == Success(Constraint([NodeProp(FqnField, Values.Str(name))], if tag.Some? then Some([Function]) else None))
  {
    var e := PropEntry("name", Values.Str(name));
    assert [e][..0] == [];
    assert SymbolKindOf("function") == Success(Function);
    assert [] + [Function] == [Function];
    assert AddKind(Constraint([], None), "function") == Success(Constraint([], Some([Function])));
    assert Constraints(tag, []) == Success(Constraint([], if tag.Some? then Some([Function]) else None));
    assert [] + [NodeProp(FqnField, e.value)] == [NodeProp(FqnField, e.value)];
  }

  // Written with a kind and a name, an end that is anchored is looked up by name alone.
  lemma LabelledNameIsLossy(name: string)
    ensures Constraints(Some("function"), [PropEntry("name", Values.Str(name))])
         == Success(Constraint([NodeProp(FqnField, Values.Str(name))], Some([Function])))
    ensures !Anchoring.Lossless(Constraint([NodeProp(FqnField, Values.Str(name))], Some([Function])))
  {
    NamedConstraint(Some("function"), name);
    assert Method !in [Function];
  }

  // A method `f` that calls `g`.
  function OneCall(): GraphView {
    GraphView([NodeRecord(Method, "f", "a.rs", 1), NodeRecord(Function, "g", "a.rs", 2)],
              [EdgeRecord(0, 1, Calls, Always, Certain)])
  }

  // `(a:function {name: "f"})-->()` also finds the call a method `f` makes.
  lemma LabelIgnored(p: Parts)
    requires PartsOf(Named("a", Some("function"), "f"), AnyCall(), Bare()) == Success(p)
    ensures var x := Solution(0, 0, 1);
      && Found(OneCall(), Named("a", Some("function"), "f"), AnyCall(), Bare(), p, x)
      && !Solves(OneCall(), Named("a", Some("function"), "f"), AnyCall(), Bare(), x)
  {
    NamedConstraint(Some("function"), "f");
    KeptByName(p.start);
    NotAFunction();
  }

  lemma NotAFunction()
    ensures !Satisfies(Named("a", Some("function"), "f"), OneCall().nodes[0])
  {
    assert SymbolKindOf("function") == Success(Function);
    assert !HasKind(Named("a", Some("function"), "f").props, Method);
  }

  lemma KeptByName(c: Constraint)
    requires c == Constraint([NodeProp(FqnField, Values.Str("f"))], Some([Function]))
    ensures Kept(OneCall(), c, 0)
  {
    NameMatches();
    assert c.props[0] == NodeProp(FqnField, Values.Str("f")) && FirstName(c.props) == Values.Str("f");
    assert AnchorSetOf(c) == Symbol(NamePattern("f"));
  }

  function AnyCall(): RelPat {
    RelPat(None, Forward, [], None, [])
  }

  lemma NameMatches()
    ensures MatchesFqn(NamePattern("f"), "f")
  {
    assert SepLen("f", 0) == 0;
  }

  function Chained(name: string): PathPattern {
    PathPattern(None, Bare(), [Step(AnyCall(), Named("b", None, name)), Step(AnyCall(), Bare())])
  }

  // The first step of `()-->(b {name: ".."})-->()` would be anchored at `b` by selectivity; as the
  // start of a chain it is anchored at every node.
  lemma FirstStepIgnoresSelectivity(name: string)
    ensures ChainSteps(Chained(name), 2).Success? && |ChainSteps(Chained(name), 2).value| == 2
    ensures ChainSteps(Chained(name), 2).value[0].anchor == All
    ensures var alone := Single(None, Bare(), AnyCall(), Named("b", None, name));
      alone.Success? && alone.value.anchor == Symbol(NamePattern(name))
  {
    var pat := Chained(name);
    NamedConstraint(None, name);
    var c := Constraint([NodeProp(FqnField, Values.Str(name))], None);
    assert c.props[0] == NodeProp(FqnField, Values.Str(name)) && FirstName(c.props) == Values.Str(name);
    assert AnchorSetOf(c) == Symbol(NamePattern(name));
    var p := Parts(Constraint([], None), c, RelKind([], false), CallsFilter([]));
    assert PartsOf(Bare(), AnyCall(), Named("b", None, name)) == Success(p);
    assert PartsOf(Named("b", None, name), AnyCall(), Bare()) == Success(p.(start := c, end := p.start));
    assert !HasName(p.start.props) && Selectivity(p.start) == 0 && Selectivity(c) == 2;
    assert ChainStep(pat, 0).Success? && ChainStep(pat, 1).Success?;
    var first, second := ChainStep(pat, 0).value, ChainStep(pat, 1).value;
    assert [] + [first] == [first] && [first] + [second] == [first, second];
    assert ChainSteps(pat, 0) == Success([]);
    assert ChainSteps(pat, 1) == Success([] + [first]);
    assert ChainSteps(pat, 2) == Success([first] + [second]);
  }
}
