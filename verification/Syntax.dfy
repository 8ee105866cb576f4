// Concrete syntax of CQL expressions and path patterns: every way an AST can be spelled in tokens.
//
// A tree of type `Syn` is an AST that also remembers the choices the AST forgets: redundant
// parentheses, `f(*)`, an empty `{}`, a bare `-->`, the form of a length bound. `Yield` writes the
// tree down, `Wf` says which trees the grammar admits, `Abs` forgets the choices.
module Syntax {
  import opened Prelude
  import opened Token
  import opened Ast

  // Token lists are read from the front only.
  datatype Tokens = Nil | Cons(head: TokenKind, tail: Tokens)

  function Length(ts: Tokens): nat {
    if ts.Nil? then 0 else 1 + Length(ts.tail)
  }

  const U32_LIMIT := 0x1_0000_0000

  datatype NodeSyn = NodeSyn(v: Option<string>, tag: Option<string>, props: Option<seq<PropEntry>>)

  datatype VarLenSyn = VarLenSyn(min: Option<nat>, dots: bool, max: Option<nat>)

  datatype RelBody = RelBody(
    v: Option<string>, types: seq<string>, varLen: Option<VarLenSyn>, props: Option<seq<PropEntry>>)

  datatype RelSyn = RelSyn(direction: Arrow, body: Option<RelBody>)

  datatype StepSyn = StepSyn(rel: RelSyn, node: NodeSyn)

  datatype PathSyn = PathSyn(pathVar: Option<string>, start: NodeSyn, steps: seq<StepSyn>)

  datatype Syn =
    | Lit(value: Value)
    | Prop(head: string, segments: seq<string>)
    | Call(name: string, args: seq<Syn>)
    | CallStar(name: string)
    | Comp(bound: string, list: Syn, filter: Option<Syn>, projection: Syn)
    | Quant(kind: QuantifierKind, bound: string, list: Syn, pred: Syn)
    | Group(inner: Syn)
    | Pat(negated: bool, path: PathSyn)
    | Bin(op: BinOp, lhs: Syn, rhs: Syn)
    | Neg(operand: Syn)

  // ---- which trees the grammar admits ----

  predicate IsLiteral(v: Value) {
    match v
    case Null => true
    case Bool(_) => true
    case Int(_) => true
    case Float(_) => true
    case Str(_) => true
    case List(items) => forall i | 0 <= i < |items| :: IsLiteral(items[i])
    case _ => false
  }

  predicate PropsWf(ps: seq<PropEntry>) {
    forall i | 0 <= i < |ps| :: IsLiteral(ps[i].value)
  }

  predicate BoundWf(b: Option<nat>) {
    b.Some? ==> b.value < U32_LIMIT
  }

  predicate VarLenWf(l: VarLenSyn) {
    BoundWf(l.min) && BoundWf(l.max) && (l.max.Some? ==> l.dots)
  }

  predicate NodeWf(n: NodeSyn) {
    n.props.Some? ==> PropsWf(n.props.value)
  }

  predicate BodyWf(b: Option<RelBody>) {
    b.Some? ==>
      && (b.value.varLen.Some? ==> VarLenWf(b.value.varLen.value))
      && (b.value.props.Some? ==> PropsWf(b.value.props.value))
  }

  predicate StepWf(s: StepSyn) {
    BodyWf(s.rel.body) && NodeWf(s.node)
  }

  predicate StepsWf(ss: seq<StepSyn>) {
    forall i | 0 <= i < |ss| :: StepWf(ss[i])
  }

  predicate PathWf(p: PathSyn) {
    NodeWf(p.start) && StepsWf(p.steps)
  }

  // Binding strength of the outermost construct: OR, AND, NOT and patterns, comparisons, primaries.
  function Level(c: Syn): nat {
    match c
    case Bin(op, _, _) => if op == OpOr then 0 else if op == OpAnd then 1 else 3
    case Neg(_) => 2
    case Pat(_, _) => 2
    case _ => 4
  }

  // After NOT a bare pattern fuses into a negated pattern predicate, so it cannot be an operand.
  predicate BarePattern(c: Syn) {
    c.Pat? && !c.negated
  }

  predicate Wf(c: Syn) {
    match c
    case Lit(v) => IsLiteral(v)
    case Prop(_, _) => true
    case Call(_, args) => forall i | 0 <= i < |args| :: Wf(args[i])
    case CallStar(_) => true
    case Comp(_, list, filter, projection) =>
      Wf(list) && (filter.Some? ==> Wf(filter.value)) && Wf(projection)
    case Quant(_, _, list, pred) => Wf(list) && Wf(pred)
    case Group(inner) => Wf(inner)
    case Pat(_, p) => PathWf(p) && p.pathVar.None? && p.steps != []
    case Bin(op, l, r) =>
      && Wf(l) && Wf(r)
      && (if op == OpOr then Level(r) >= 1
          else if op == OpAnd then Level(l) >= 1 && Level(r) >= 2
          else Level(l) == 4 && Level(r) == 4)
    case Neg(e) => Wf(e) && Level(e) >= 2 && !BarePattern(e)
  }

  // ---- spelling ----
  //
  // Each function writes the tokens of its first argument in front of `k`, the tokens that follow.

  function SpellLit(v: Value, k: Tokens): Tokens
    requires IsLiteral(v)
    decreases v, 0
  {
    match v
    case Null => Cons(KwNull, k)
    case Bool(b) => Cons(if b then KwTrue else KwFalse, k)
    case Int(n) => Cons(TokenKind.Int(n), k)
    case Float(f) => Cons(TokenKind.Float(f), k)
    case Str(s) => Cons(TokenKind.Str(s), k)
    case List(items) => Cons(LBracket, SpellLits(items, Cons(RBracket, k)))
  }

  function SpellLits(vs: seq<Value>, k: Tokens): Tokens
    requires forall i | 0 <= i < |vs| :: IsLiteral(vs[i])
    decreases vs, 0
  {
    if vs == [] then k
    else if |vs| == 1 then SpellLit(vs[0], k)
    else SpellLit(vs[0], Cons(Comma, SpellLits(vs[1..], k)))
  }

  function SpellEntries(ps: seq<PropEntry>, k: Tokens): Tokens
    requires PropsWf(ps)
  {
    if ps == [] then k
    else
      Cons(Ident(ps[0].key), Cons(Colon, SpellLit(ps[0].value,
        if |ps| == 1 then k else Cons(Comma, SpellEntries(ps[1..], k)))))
  }

  function SpellProps(ps: Option<seq<PropEntry>>, k: Tokens): Tokens
    requires ps.Some? ==> PropsWf(ps.value)
  {
    if ps.None? then k else Cons(LBrace, SpellEntries(ps.value, Cons(RBrace, k)))
  }

  function SpellOptIdent(v: Option<string>, k: Tokens): Tokens {
    if v.None? then k else Cons(Ident(v.value), k)
  }

  function SpellTag(v: Option<string>, k: Tokens): Tokens {
    if v.None? then k else Cons(Colon, Cons(Ident(v.value), k))
  }

  function SpellNode(n: NodeSyn, k: Tokens): Tokens
    requires NodeWf(n)
  {
    Cons(LParen, SpellOptIdent(n.v, SpellTag(n.tag, SpellProps(n.props, Cons(RParen, k)))))
  }

  function SpellMoreTypes(ts: seq<string>, k: Tokens): Tokens {
    if ts == [] then k else Cons(Pipe, Cons(Ident(ts[0]), SpellMoreTypes(ts[1..], k)))
  }

  function SpellTypes(ts: seq<string>, k: Tokens): Tokens {
    if ts == [] then k else Cons(Colon, Cons(Ident(ts[0]), SpellMoreTypes(ts[1..], k)))
  }

  function SpellBound(b: Option<nat>, k: Tokens): Tokens {
    if b.None? then k else Cons(TokenKind.Int(b.value), k)
  }

  function SpellVarLen(l: Option<VarLenSyn>, k: Tokens): Tokens {
    if l.None? then k
    else Cons(Star, SpellBound(l.value.min,
                               if l.value.dots then Cons(DotDot, SpellBound(l.value.max, k)) else k))
  }

  function SpellBody(b: Option<RelBody>, k: Tokens): Tokens
    requires BodyWf(b)
  {
    if b.None? then k
    else
      Cons(LBracket, SpellOptIdent(b.value.v, SpellTypes(b.value.types,
        SpellVarLen(b.value.varLen, SpellProps(b.value.props, Cons(RBracket, k))))))
  }

  function SpellRel(r: RelSyn, k: Tokens): Tokens
    requires BodyWf(r.body)
  {
    if r.direction.Forward? then Cons(Dash, SpellBody(r.body, Cons(ArrowR, k)))
    else Cons(ArrowL, SpellBody(r.body, Cons(Dash, k)))
  }

  function SpellStep(s: StepSyn, k: Tokens): Tokens
    requires StepWf(s)
  {
    SpellRel(s.rel, SpellNode(s.node, k))
  }

  function SpellSteps(ss: seq<StepSyn>, k: Tokens): Tokens
    requires StepsWf(ss)
  {
    if ss == [] then k else SpellStep(ss[0], SpellSteps(ss[1..], k))
  }

  function SpellPathVar(v: Option<string>, k: Tokens): Tokens {
    if v.None? then k else Cons(Ident(v.value), Cons(TokenKind.Eq, k))
  }

  function SpellPath(p: PathSyn, k: Tokens): Tokens
    requires PathWf(p)
  {
    SpellPathVar(p.pathVar, SpellNode(p.start, SpellSteps(p.steps, k)))
  }

  function SpellSegments(segments: seq<string>, k: Tokens): Tokens {
    if segments == [] then k else Cons(Dot, Cons(Ident(segments[0]), SpellSegments(segments[1..], k)))
  }

  function OpTok(op: BinOp): TokenKind {
    match op
    case OpEq => TokenKind.Eq
    case OpNe => Ne
    case OpLt => Lt
    case OpLe => Le
    case OpGt => Gt
    case OpGe => Ge
    case OpIn => KwIn
    case OpAnd => KwAnd
    case OpOr => KwOr
  }

  function QuantTok(q: QuantifierKind): TokenKind {
    match q
    case QNone => KwNone
    case QAny => KwAny
    case QAll => KwAll
  }

  function Spell(c: Syn, k: Tokens): Tokens
    requires Wf(c)
    decreases c, 1
  {
    match c
    case Lit(v) => SpellLit(v, k)
    case Prop(head, segments) => Cons(Ident(head), SpellSegments(segments, k))
    case Call(name, args) => Cons(Ident(name), Cons(LParen, SpellArgs(args, Cons(RParen, k))))
    case CallStar(name) => Cons(Ident(name), Cons(LParen, Cons(Star, Cons(RParen, k))))
    case Comp(x, list, filter, projection) =>
      Cons(LBracket, Cons(Ident(x), Cons(KwIn, Spell(list,
        SpellFilter(filter, Cons(Pipe, Spell(projection, Cons(RBracket, k))))))))
    case Quant(q, x, list, pred) =>
      Cons(QuantTok(q), Cons(LParen, Cons(Ident(x), Cons(KwIn,
        Spell(list, Cons(KwWhere, Spell(pred, Cons(RParen, k))))))))
    case Group(inner) => Cons(LParen, Spell(inner, Cons(RParen, k)))
    case Pat(negated, p) => if negated then Cons(KwNot, SpellPath(p, k)) else SpellPath(p, k)
    case Bin(op, l, r) => Spell(l, Cons(OpTok(op), Spell(r, k)))
    case Neg(e) => Cons(KwNot, Spell(e, k))
  }

  function SpellFilter(filter: Option<Syn>, k: Tokens): Tokens
    requires filter.Some? ==> Wf(filter.value)
    decreases filter, 0
  {
    if filter.None? then k else Cons(KwWhere, Spell(filter.value, k))
  }

  function SpellArgs(args: seq<Syn>, k: Tokens): Tokens
    requires forall i | 0 <= i < |args| :: Wf(args[i])
    decreases args, 0
  {
    if args == [] then k
    else if |args| == 1 then Spell(args[0], k)
    else Spell(args[0], Cons(Comma, SpellArgs(args[1..], k)))
  }

  // ---- the AST a tree stands for ----

  function AbsProps(ps: Option<seq<PropEntry>>): seq<PropEntry> {
    if ps.None? then [] else ps.value
  }

  function AbsNode(n: NodeSyn): NodePat {
    NodePat(n.v, n.tag, AbsProps(n.props))
  }

  // `*n` without dots is the exact length n.
  function AbsVarLen(l: VarLenSyn): VarLen {
    VarLen(l.min, if l.dots then l.max else l.min)
  }

  function AbsOptVarLen(l: Option<VarLenSyn>): Option<VarLen> {
    if l.None? then None else Some(AbsVarLen(l.value))
  }

  function AbsBody(direction: Arrow, b: RelBody): RelPat {
    RelPat(b.v, direction, b.types, AbsOptVarLen(b.varLen), AbsProps(b.props))
  }

  function AbsRel(r: RelSyn): RelPat {
    if r.body.None? then RelPat(None, r.direction, [], None, []) else AbsBody(r.direction, r.body.value)
  }

  function AbsStep(s: StepSyn): Step {
    Step(AbsRel(s.rel), AbsNode(s.node))
  }

  function AbsSteps(ss: seq<StepSyn>): (r: seq<Step>)
    ensures |r| == |ss|
    ensures forall i | 0 <= i < |ss| :: r[i] == AbsStep(ss[i])
  {
    if ss == [] then [] else [AbsStep(ss[0])] + AbsSteps(ss[1..])
  }

  function AbsPath(p: PathSyn): PathPattern {
    PathPattern(p.pathVar, AbsNode(p.start), AbsSteps(p.steps))
  }

  function Abs(c: Syn): Expr
    decreases c, 1
  {
    match c
    case Lit(v) => Literal(v)
    case Prop(head, segments) => Property(head, segments)
    case Call(name, args) => FunctionCall(name, AbsArgs(args))
    case CallStar(name) => FunctionCall(name, [Property("*", [])])
    case Comp(x, list, filter, projection) =>
      ListComp(x, Abs(list), AbsFilter(filter), Abs(projection))
    case Quant(k, x, list, pred) => Quantifier(k, x, Abs(list), Abs(pred))
    case Group(inner) => Abs(inner)
    case Pat(negated, p) => PatternPredicate(negated, AbsPath(p))
    case Bin(op, l, r) => Binary(op, Abs(l), Abs(r))
    case Neg(e) => Not(Abs(e))
  }

  function AbsFilter(filter: Option<Syn>): Option<Expr>
    decreases filter, 0
  {
    if filter.None? then None else Some(Abs(filter.value))
  }

  function AbsArgs(args: seq<Syn>): (r: seq<Expr>)
    ensures |r| == |args|
    ensures forall i | 0 <= i < |args| :: r[i] == Abs(args[i])
    decreases args, 0
  {
    if args == [] then [] else [Abs(args[0])] + AbsArgs(args[1..])
  }
}
