// Lowering a MATCH pattern to traversal plans (crates/cgx-cql/src/lower.rs).
module Lowering {
  import opened Prelude
  import opened Graph
  import Token
  import opened Ast
  import opened CodeGraph
  import opened SymbolPatterns

  type Lowered<T> = Result<T, Token.ErrorKind>

  datatype NodeField = FqnField | FileField | LineField | KindField

  datatype NodeProp = NodeProp(field: NodeField, value: Value)

  datatype EdgeField = ConditionField | ConfidenceField | EdgeKindField

  datatype AnchorSet = Symbol(pattern: SymbolPattern) | Kinds(kinds: seq<SymbolKind>) | All

  datatype Cardinality = SingleHop | VarLength(min: nat, max: Option<nat>)

  datatype PatternPlan = PatternPlan(
    pathVar: Option<string>, anchorBoundVar: Option<string>, anchorVar: Option<string>, peerVar: Option<string>,
    relVar: Option<string>, anchor: AnchorSet, direction: Direction, filter: EdgeFilter, cardinality: Cardinality,
    peerKinds: Option<seq<SymbolKind>>, peerProps: seq<NodeProp>)

  // ---- the name tables ----

  function NodeFieldOf(name: string): Lowered<NodeField> {
    if name == "name" || name == "fqn" then Success(FqnField)
    else if name == "file" then Success(FileField)
    else if name == "line" then Success(LineField)
    else if name == "kind" then Success(KindField)
    else Failure(Token.Plan)
  }

  function EdgeFieldOf(name: string): Lowered<EdgeField> {
    if name == "condition" then Success(ConditionField)
    else if name == "confidence" then Success(ConfidenceField)
    else if name == "kind" then Success(EdgeKindField)
    else Failure(Token.Plan)
  }

  function SymbolKindOf(token: string): Lowered<SymbolKind> {
    if token == "function" then Success(Function)
    else if token == "method" then Success(Method)
    else if token == "type" then Success(Type)
    else if token == "field" then Success(Field)
    else if token == "variable" then Success(Variable)
    else if token == "module" then Success(Module)
    else if token == "constant" then Success(Constant)
    else if token == "macro" then Success(Macro)
    else if token == "lambda" then Success(Lambda)
    else if token == "entrypoint" then Success(Entrypoint)
    else Failure(Token.Plan)
  }

  // The stored kinds of a relationship type, and whether the stored arrow runs against the written
  // one: MEMBER_OF reads `Contains` edges backwards.
  datatype RelKind = RelKind(kinds: seq<EdgeKind>, invert: bool)

  function RelKindOf(token: string): Lowered<RelKind> {
    if token == "CALLS" then
      Success(RelKind([Calls, CallsVirtual, CallsClosure, CallsCallback, CallsAsync, CallsIndirect], false))
    else if token == "SPAWNS" then Success(RelKind([Spawns], false))
    else if token == "DATA_FLOW" then Success(RelKind([DerivesFrom], false))
    else if token == "MEMBER_OF" then Success(RelKind([Contains], true))
    else if token == "CONTAINS" then Success(RelKind([Contains], false))
    else if token == "OVERRIDES" then Success(RelKind([Overrides], false))
    else if token == "INHERITS" then Success(RelKind([Inherits], false))
    else if token == "IMPLEMENTS" then Success(RelKind([Implements], false))
    else if token == "IMPORTS" then Success(RelKind([Imports], false))
    else if token == "REFERENCES" then Success(RelKind([References], false))
    else if token == "INSTANTIATES" then Success(RelKind([Instantiates], false))
    else if token == "THROWS" then Success(RelKind([Throws], false))
    else if token == "CATCHES" then Success(RelKind([Catches], false))
    else if token == "READS_FIELD" then Success(RelKind([ReadsField], false))
    else if token == "WRITES_FIELD" then Success(RelKind([WritesField], false))
    else Failure(Token.Plan)
  }

  function ConditionOf(v: Value): Lowered<Condition> {
    if !v.Str? then Failure(Token.Plan)
    else if v.text == "always" then Success(Always)
    else if v.text == "conditional" then Success(Conditional)
    else if v.text == "loop" then Success(Loop)
    else if v.text == "exception" then Success(Exception)
    else if v.text == "panic" then Success(Panic)
    else Failure(Token.Plan)
  }

  function ConfidenceOf(v: Value): Lowered<Confidence> {
    if !v.Str? then Failure(Token.Plan)
    else if v.text == "possible" then Success(Possible)
    else if v.text == "probable" then Success(Probable)
    else if v.text == "certain" then Success(Certain)
    else Failure(Token.Plan)
  }

  function NamePattern(s: string): SymbolPattern {
    SymbolPattern(if '*' in s || '?' in s then Glob else if HasSeparator(s) then Fqn else ShortName, s)
  }

  // ---- node constraints ----

  datatype Constraint = Constraint(props: seq<NodeProp>, kinds: Option<seq<SymbolKind>>)

  function AddKind(c: Constraint, token: string): Lowered<Constraint> {
    var k :- SymbolKindOf(token);
    Success(Constraint(c.props, Some((if c.kinds.Some? then c.kinds.value else []) + [k])))
  }

  function AddEntry(c: Constraint, e: PropEntry): Lowered<Constraint> {
    var field :- NodeFieldOf(e.key);
    if field != KindField then Success(Constraint(c.props + [NodeProp(field, e.value)], c.kinds))
    else if e.value.Str? then AddKind(c, e.value.text)
    else Failure(Token.Plan)
  }

  function TagConstraint(tag: Option<string>): Lowered<Constraint> {
    match tag
    case None => Success(Constraint([], None))
    case Some(token) => AddKind(Constraint([], None), token)
  }

  function Constraints(tag: Option<string>, props: seq<PropEntry>): Lowered<Constraint> {
    if props == [] then TagConstraint(tag)
    else
      var c :- Constraints(tag, props[..|props| - 1]);
      AddEntry(c, props[|props| - 1])
  }

  method NodeConstraints(node: NodePat) returns (r: Lowered<Constraint>)
    ensures r == Constraints(node.tag, node.props)
  {
    var first := TagConstraint(node.tag);
    assert node.props[..0] == [];
    if first.Failure? {
      PrefixFails(node.tag, node.props, 0);
      return first;
    }
    var c := first.value;
    for i := 0 to |node.props|
      invariant Constraints(node.tag, node.props[..i]) == Success(c)
    {
      assert node.props[..i + 1][..i] == node.props[..i];
      var next := AddEntry(c, node.props[i]);
      if next.Failure? {
        PrefixFails(node.tag, node.props, i + 1);
        return next;
      }
      c := next.value;
    }
    assert node.props[..|node.props|] == node.props;
    return Success(c);
  }

  // The first bad entry decides the error.
  lemma {:induction false} PrefixFails(tag: Option<string>, props: seq<PropEntry>, i: nat)
    requires i <= |props| && Constraints(tag, props[..i]).Failure?
    ensures Constraints(tag, props) == Constraints(tag, props[..i])
    decreases |props| - i
  {
    if i == |props| {
      assert props[..i] == props;
    } else {
      assert props[..i + 1][..i] == props[..i];
      PrefixFails(tag, props, i + 1);
    }
  }

  // ---- anchors ----

  predicate HasName(props: seq<NodeProp>) {
    exists i | 0 <= i < |props| :: props[i].field == FqnField
  }

  function FirstName(props: seq<NodeProp>): (v: Value)
    requires HasName(props)
    ensures exists i | 0 <= i < |props| :: props[i] == NodeProp(FqnField, v)
  {
    if props[0].field == FqnField then props[0].value
    else
      assert HasName(props[1..]) by {
        var i :| 0 <= i < |props| && props[i].field == FqnField;
        assert props[1..][i - 1].field == FqnField;
      }
      var v := FirstName(props[1..]);
      assert exists i | 0 <= i < |props| :: props[i] == NodeProp(FqnField, v) by {
        var i :| 0 <= i < |props| - 1 && props[1..][i] == NodeProp(FqnField, v);
        assert props[i + 1] == NodeProp(FqnField, v);
      }
      v
  }

  function Selectivity(c: Constraint): nat {
    if HasName(c.props) then 2 else if c.kinds.Some? || c.props != [] then 1 else 0
  }

  // Keeps one constraint of the end: its first name if that is a string, else its kinds.
  function AnchorSetOf(c: Constraint): AnchorSet {
    if HasName(c.props) && FirstName(c.props).Str? then Symbol(NamePattern(FirstName(c.props).text))
    else if c.kinds.Some? then Kinds(c.kinds.value)
    else All
  }

  // ---- relationships ----

  function WalkDirection(arrow: Arrow, invert: bool): Direction {
    if invert then Reverse(arrow) else arrow
  }

  // All types of a relationship must agree on the stored direction.
  function RelKindsOf(types: seq<string>): Lowered<RelKind> {
    if types == [] then Success(RelKind([], false))
    else
      var was :- RelKindsOf(types[..|types| - 1]);
      var k :- RelKindOf(types[|types| - 1]);
      if |types| > 1 && was.invert != k.invert then Failure(Token.Plan)
      else Success(RelKind(was.kinds + k.kinds, k.invert))
  }

  method RelKindsMulti(types: seq<string>) returns (r: Lowered<RelKind>)
    ensures r == RelKindsOf(types)
  {
    var kinds: seq<EdgeKind> := [];
    var invert: Option<bool> := None;
    for i := 0 to |types|
      invariant invert.Some? <==> i > 0
      invariant RelKindsOf(types[..i]) == Success(RelKind(kinds, if invert.Some? then invert.value else false))
    {
      assert types[..i + 1][..i] == types[..i];
      var k := RelKindOf(types[i]);
      if k.Failure? {
        TypesFail(types, i + 1);
        return Failure(k.error);
      }
      if invert.Some? && invert.value != k.value.invert {
        TypesFail(types, i + 1);
        return Failure(Token.Plan);
      }
      invert := Some(k.value.invert);
      kinds := kinds + k.value.kinds;
    }
    assert types[..|types|] == types;
    return Success(RelKind(kinds, if invert.Some? then invert.value else false));
  }

  lemma {:induction false} TypesFail(types: seq<string>, i: nat)
    requires i <= |types| && RelKindsOf(types[..i]).Failure?
    ensures RelKindsOf(types) == RelKindsOf(types[..i])
    decreases |types| - i
  {
    if i == |types| {
      assert types[..i] == types;
    } else {
      assert types[..i + 1][..i] == types[..i];
      TypesFail(types, i + 1);
    }
  }

  function CallsFilter(kinds: seq<EdgeKind>): EdgeFilter {
    EdgeFilter(Possible, AnyCondition, if kinds == [] then None else Some(kinds))
  }

  function AddRelProp(f: EdgeFilter, e: PropEntry): Lowered<EdgeFilter> {
    var field :- EdgeFieldOf(e.key);
    match field
    case ConditionField =>
      var c :- ConditionOf(e.value);
      Success(f.(condition := Only(c)))
    case ConfidenceField =>
      var c :- ConfidenceOf(e.value);
      Success(f.(minConfidence := c))
    case EdgeKindField => Failure(Token.Plan)
  }

  function RelProps(f: EdgeFilter, props: seq<PropEntry>): Lowered<EdgeFilter> {
    if props == [] then Success(f)
    else
      var was :- RelProps(f, props[..|props| - 1]);
      AddRelProp(was, props[|props| - 1])
  }

  method ApplyRelProps(filter: EdgeFilter, props: seq<PropEntry>) returns (r: Lowered<EdgeFilter>)
    ensures r == RelProps(filter, props)
  {
    var f := filter;
    for i := 0 to |props|
      invariant RelProps(filter, props[..i]) == Success(f)
    {
      assert props[..i + 1][..i] == props[..i];
      var next := AddRelProp(f, props[i]);
      if next.Failure? {
        PropsFail(filter, props, i + 1);
        return next;
      }
      f := next.value;
    }
    assert props[..|props|] == props;
    return Success(f);
  }

  lemma {:induction false} PropsFail(f: EdgeFilter, props: seq<PropEntry>, i: nat)
    requires i <= |props| && RelProps(f, props[..i]).Failure?
    ensures RelProps(f, props) == RelProps(f, props[..i])
    decreases |props| - i
  {
    if i == |props| {
      assert props[..i] == props;
    } else {
      assert props[..i + 1][..i] == props[..i];
      PropsFail(f, props, i + 1);
    }
  }

  // ---- plans ----

  function CardinalityOf(v: Option<VarLen>): Cardinality {
    match v
    case None => SingleHop
    case Some(l) => VarLength(if l.min.Some? then l.min.value else 1, l.max)
  }

  // The two ends and the relationship, lowered.
  datatype Parts = Parts(start: Constraint, end: Constraint, rel: RelKind, filter: EdgeFilter)

  function PartsOf(start: NodePat, rel: RelPat, end: NodePat): Lowered<Parts> {
    var s :- Constraints(start.tag, start.props);
    var e :- Constraints(end.tag, end.props);
    var k :- RelKindsOf(rel.types);
    var f :- RelProps(CallsFilter(k.kinds), rel.props);
    Success(Parts(s, e, k, f))
  }

  method LowerParts(start: NodePat, rel: RelPat, end: NodePat) returns (r: Lowered<Parts>)
    ensures r == PartsOf(start, rel, end)
  {
    var s :- NodeConstraints(start);
    var e :- NodeConstraints(end);
    var k :- RelKindsMulti(rel.types);
    var f :- ApplyRelProps(CallsFilter(k.kinds), rel.props);
    return Success(Parts(s, e, k, f));
  }

  predicate AnchorsAtStart(p: Parts) {
    Selectivity(p.start) >= Selectivity(p.end)
  }

  // The plan that walks from the start node, and the one that walks from the end node.
  function FromStart(pathVar: Option<string>, start: NodePat, rel: RelPat, end: NodePat, p: Parts): PatternPlan {
    PatternPlan(pathVar, None, start.v, end.v, rel.v, AnchorSetOf(p.start),
                WalkDirection(rel.direction, p.rel.invert), p.filter, CardinalityOf(rel.varLen), p.end.kinds,
                p.end.props)
  }

  function FromEnd(pathVar: Option<string>, start: NodePat, rel: RelPat, end: NodePat, p: Parts): PatternPlan {
    PatternPlan(pathVar, None, end.v, start.v, rel.v, AnchorSetOf(p.end),
                Reverse(WalkDirection(rel.direction, p.rel.invert)), p.filter, CardinalityOf(rel.varLen), p.start.kinds,
                p.start.props)
  }

  method LowerSingle(pathVar: Option<string>, start: NodePat, rel: RelPat, end: NodePat)
    returns (r: Lowered<PatternPlan>)
    ensures r == Single(pathVar, start, rel, end)
  {
    var p :- LowerParts(start, rel, end);
    var atStart := AnchorsAtStart(p);
    var d := WalkDirection(rel.direction, p.rel.invert);
    var direction := if atStart then d else Reverse(d);
    var anchor, peer := if atStart then p.start else p.end, if atStart then p.end else p.start;
    var anchorVar, peerVar := if atStart then start.v else end.v, if atStart then end.v else start.v;
    return Success(PatternPlan(pathVar, None, anchorVar, peerVar, rel.v, AnchorSetOf(anchor), direction, p.filter,
                               CardinalityOf(rel.varLen), peer.kinds, peer.props));
  }

  function Single(pathVar: Option<string>, start: NodePat, rel: RelPat, end: NodePat): Lowered<PatternPlan> {
    var p :- PartsOf(start, rel, end);
    Success(if AnchorsAtStart(p) then FromStart(pathVar, start, rel, end, p) else FromEnd(pathVar, start, rel, end, p))
  }

  function NodeAt(pat: PathPattern, i: nat): NodePat
    requires i <= |pat.steps|
  {
    if i == 0 then pat.start else pat.steps[i - 1].node
  }

  // A step of a chain walks from its written start; after the first it starts from the node the
  // step before has bound.
  function ChainStep(pat: PathPattern, i: nat): Lowered<PatternPlan>
    requires i < |pat.steps|
  {
    var start, end := NodeAt(pat, i), NodeAt(pat, i + 1);
    if i + 1 < |pat.steps| && end.v.None? then Failure(Token.Plan)
    else
      var p :- PartsOf(start, pat.steps[i].rel, end);
      var plan := FromStart(None, start, pat.steps[i].rel, end, p);
      Success(if i > 0 then plan.(anchorBoundVar := start.v) else plan)
  }

  function ChainSteps(pat: PathPattern, n: nat): Lowered<seq<PatternPlan>>
    requires n <= |pat.steps|
  {
    if n == 0 then Success([])
    else
      var was :- ChainSteps(pat, n - 1);
      var plan :- ChainStep(pat, n - 1);
      Success(was + [plan])
  }

  function Chain(pat: PathPattern): Lowered<seq<PatternPlan>> {
    if pat.steps == [] then Failure(Token.Plan)
    else if |pat.steps| == 1 then
      var plan :- Single(pat.pathVar, pat.start, pat.steps[0].rel, pat.steps[0].node);
      Success([plan])
    else if pat.pathVar.Some? then Failure(Token.Plan)
    else ChainSteps(pat, |pat.steps|)
  }

  method LowerPatternChain(pat: PathPattern) returns (r: Lowered<seq<PatternPlan>>)
    ensures r == Chain(pat)
  {
    if pat.steps == [] {
      return Failure(Token.Plan);
    }
    if |pat.steps| == 1 {
      var plan :- LowerSingle(pat.pathVar, pat.start, pat.steps[0].rel, pat.steps[0].node);
      return Success([plan]);
    }
    if pat.pathVar.Some? {
      return Failure(Token.Plan);
    }
    var plans: seq<PatternPlan> := [];
    var prev := pat.start;
    for i := 0 to |pat.steps|
      invariant prev == NodeAt(pat, i)
      invariant ChainSteps(pat, i) == Success(plans)
    {
      var rel, end := pat.steps[i].rel, pat.steps[i].node;
      if i + 1 < |pat.steps| && end.v.None? {
        StepsFail(pat, i + 1);
        return Failure(Token.Plan);
      }
      var p := LowerParts(prev, rel, end);
      if p.Failure? {
        StepsFail(pat, i + 1);
        return Failure(p.error);
      }
      var plan := FromStart(None, prev, rel, end, p.value);
      if i > 0 {
        plan := plan.(anchorBoundVar := prev.v);
      }
      plans := plans + [plan];
      prev := end;
    }
    return Success(plans);
  }

  lemma {:induction false} StepsFail(pat: PathPattern, i: nat)
    requires i <= |pat.steps| && ChainSteps(pat, i).Failure?
    ensures ChainSteps(pat, |pat.steps|) == ChainSteps(pat, i)
    decreases |pat.steps| - i
  {
    if i < |pat.steps| {
      StepsFail(pat, i + 1);
    }
  }
}
