// The parser is exact: on complete token lists it is the inverse of spelling, and every AST it can
// produce has spellings that parse back to it, with parentheses only where precedence needs them or
// with one pair around every operand.
module ParserTheorems {
  import opened Prelude
  import opened Token
  import opened Ast
  import opened Syntax
  import opened Grammar
  import opened Soundness
  import opened Completeness

  const END: Tokens := Cons(Eof, Nil)

  lemma SpelledParses(c: Syn, ts: Tokens)
    requires Wf(c) && ts == Spell(c, END)
    ensures Input(ts) && ParseOr(ts) == Ok(c, END)
  {
    ExprParses(c, END);
  }

  // A whole expression is parsed to `c` exactly when it is the spelling of the admitted tree `c`.
  lemma ParserIsExact(ts: Tokens, c: Syn)
    requires Input(ts)
    ensures ParseOr(ts) == Ok(c, END) <==> Wf(c) && ts == Spell(c, END)
  {
    OrSound(ts);
    if Wf(c) && ts == Spell(c, END) {
      SpelledParses(c, ts);
    }
  }

  lemma GrammarIsUnambiguous(c: Syn, d: Syn)
    requires Wf(c) && Wf(d) && Spell(c, END) == Spell(d, END)
    ensures c == d
  {
    SpelledParses(c, Spell(c, END));
    SpelledParses(d, Spell(c, END));
  }

  // ---- which ASTs the parser produces ----

  predicate VarLenOk(l: VarLen) {
    BoundWf(l.min) && BoundWf(l.max)
  }

  predicate StepOk(s: Step) {
    (s.rel.varLen.Some? ==> VarLenOk(s.rel.varLen.value)) && PropsWf(s.rel.props) && PropsWf(s.node.props)
  }

  predicate PatternOk(p: PathPattern) {
    && p.pathVar.None? && p.steps != [] && PropsWf(p.start.props)
    && forall i | 0 <= i < |p.steps| :: StepOk(p.steps[i])
  }

  predicate Parseable(e: Expr) {
    match e
    case Literal(v) => IsLiteral(v)
    case Property(_, _) => true
    case FunctionCall(_, args) => forall i | 0 <= i < |args| :: Parseable(args[i])
    case ListComp(_, list, filter, projection) =>
      Parseable(list) && (filter.Some? ==> Parseable(filter.value)) && Parseable(projection)
    case Quantifier(_, _, list, pred) => Parseable(list) && Parseable(pred)
    case PatternPredicate(_, p) => PatternOk(p)
    case Binary(_, l, r) => Parseable(l) && Parseable(r)
    case Not(inner) => Parseable(inner)
  }

  lemma {:induction false} ParsedIsParseable(c: Syn)
    requires Wf(c)
    ensures Parseable(Abs(c))
    decreases c
  {
    match c {
      case Call(_, args) =>
        forall i | 0 <= i < |args| ensures Parseable(Abs(args[i])) {
          ParsedIsParseable(args[i]);
        }
      case Comp(_, list, filter, projection) =>
        ParsedIsParseable(list);
        if filter.Some? {
          ParsedIsParseable(filter.value);
        }
        ParsedIsParseable(projection);
      case Quant(_, _, list, pred) =>
        ParsedIsParseable(list);
        ParsedIsParseable(pred);
      case Group(inner) => ParsedIsParseable(inner);
      case Bin(_, l, r) =>
        ParsedIsParseable(l);
        ParsedIsParseable(r);
      case Neg(e) => ParsedIsParseable(e);
      case Pat(_, p) => ParsedPatternOk(p);
      case _ =>
    }
  }

  lemma ParsedPatternOk(p: PathSyn)
    requires PathWf(p) && p.pathVar.None? && p.steps != []
    ensures PatternOk(AbsPath(p))
  {
    forall i | 0 <= i < |p.steps| ensures StepOk(AbsStep(p.steps[i])) {
      assert StepWf(p.steps[i]);
    }
  }

  // ---- printing ----

  function PropsTree(ps: seq<PropEntry>): Option<seq<PropEntry>> {
    if ps == [] then None else Some(ps)
  }

  function NodeTree(n: NodePat): NodeSyn {
    NodeSyn(n.v, n.tag, PropsTree(n.props))
  }

  function StepTree(s: Step): StepSyn {
    var r := s.rel;
    var varLen := if r.varLen.None? then None else Some(VarLenSyn(r.varLen.value.min, true, r.varLen.value.max));
    StepSyn(RelSyn(r.direction, Some(RelBody(r.v, r.types, varLen, PropsTree(r.props)))), NodeTree(s.node))
  }

  function PathTree(p: PathPattern): PathSyn {
    PathSyn(p.pathVar, NodeTree(p.start), seq(|p.steps|, i requires 0 <= i < |p.steps| => StepTree(p.steps[i])))
  }

  // Parenthesises an operand that binds weaker than its position needs, or every operand.
  function Operand(c: Syn, level: nat, full: bool): Syn {
    if full || Level(c) < level then Group(c) else c
  }

  // The parser's reading of `f(*)`.
  predicate IsStar(args: seq<Expr>) {
    args == [Property("*", [])]
  }

  function Print(e: Expr, full: bool): Syn
    decreases e, 1
  {
    match e
    case Literal(v) => Lit(v)
    case Property(head, segments) => Prop(head, segments)
    case FunctionCall(name, args) => if IsStar(args) then CallStar(name) else Call(name, PrintArgs(args, full))
    case ListComp(x, list, filter, projection) =>
      Comp(x, Print(list, full), if filter.None? then None else Some(Print(filter.value, full)),
           Print(projection, full))
    case Quantifier(q, x, list, pred) => Quant(q, x, Print(list, full), Print(pred, full))
    case PatternPredicate(negated, p) => Pat(negated, PathTree(p))
    case Binary(op, l, r) =>
      var (levelL, levelR) := if op == OpOr then (0, 1) else if op == OpAnd then (1, 2) else (4, 4);
      Bin(op, Operand(Print(l, full), levelL, full), Operand(Print(r, full), levelR, full))
    case Not(inner) =>
      var c := Print(inner, full);
      Neg(if BarePattern(c) then Group(c) else Operand(c, 2, full))
  }

  function PrintArgs(args: seq<Expr>, full: bool): (r: seq<Syn>)
    ensures |r| == |args|
    ensures forall i | 0 <= i < |args| :: r[i] == Print(args[i], full)
    decreases args, 0
  {
    if args == [] then [] else [Print(args[0], full)] + PrintArgs(args[1..], full)
  }

  lemma {:induction false} PathTreeIsFaithful(p: PathPattern)
    requires PatternOk(p)
    ensures PathWf(PathTree(p)) && AbsPath(PathTree(p)) == p
  {
    var t := PathTree(p);
    forall i | 0 <= i < |p.steps| ensures StepWf(t.steps[i]) && AbsStep(t.steps[i]) == p.steps[i] {
      assert t.steps[i] == StepTree(p.steps[i]);
    }
    assert AbsSteps(t.steps) == p.steps;
  }

  lemma {:induction false} PrintIsFaithful(e: Expr, full: bool)
    requires Parseable(e)
    ensures Wf(Print(e, full)) && Abs(Print(e, full)) == e
    decreases e
  {
    match e {
      case FunctionCall(name, args) =>
        forall i | 0 <= i < |args| ensures Wf(Print(args[i], full)) && Abs(Print(args[i], full)) == args[i] {
          PrintIsFaithful(args[i], full);
        }
        CallIsFaithful(name, args, full);
      case ListComp(_, list, filter, projection) =>
        PrintIsFaithful(list, full);
        if filter.Some? {
          PrintIsFaithful(filter.value, full);
        }
        PrintIsFaithful(projection, full);
      case Quantifier(_, _, list, pred) =>
        PrintIsFaithful(list, full);
        PrintIsFaithful(pred, full);
      case PatternPredicate(_, p) => PathTreeIsFaithful(p);
      case Binary(op, l, r) =>
        PrintIsFaithful(l, full);
        PrintIsFaithful(r, full);
        BinaryIsFaithful(op, l, r, full);
      case Not(inner) => PrintIsFaithful(inner, full);
      case _ =>
    }
  }

  lemma CallIsFaithful(name: string, args: seq<Expr>, full: bool)
    requires forall i | 0 <= i < |args| :: Wf(Print(args[i], full)) && Abs(Print(args[i], full)) == args[i]
    ensures Wf(Print(FunctionCall(name, args), full))
    ensures Abs(Print(FunctionCall(name, args), full)) == FunctionCall(name, args)
  {
    assert AbsArgs(PrintArgs(args, full)) == args;
  }

  lemma BinaryIsFaithful(op: BinOp, l: Expr, r: Expr, full: bool)
    requires Wf(Print(l, full)) && Abs(Print(l, full)) == l
    requires Wf(Print(r, full)) && Abs(Print(r, full)) == r
    ensures Wf(Print(Binary(op, l, r), full)) && Abs(Print(Binary(op, l, r), full)) == Binary(op, l, r)
  {
    var cl, cr := Print(l, full), Print(r, full);
    forall level: nat | level <= 4
      ensures Wf(Operand(cl, level, full)) && Abs(Operand(cl, level, full)) == l
      ensures Wf(Operand(cr, level, full)) && Abs(Operand(cr, level, full)) == r
    {
    }
  }

  // Printing and parsing: every AST the parser can produce is parsed back from its rendering, fully
  // parenthesised or with parentheses only where precedence needs them.
  lemma PrintedExprParsesBack(e: Expr, full: bool)
    requires Parseable(e)
    ensures var c := Print(e, full);
            Wf(c) && Input(Spell(c, END)) && ParseOr(Spell(c, END)) == Ok(c, END) && Abs(c) == e
  {
    PrintIsFaithful(e, full);
    SpelledParses(Print(e, full), Spell(Print(e, full), END));
  }

  predicate Produces(ts: Tokens, e: Expr)
    requires Input(ts)
  {
    ParseOr(ts).Ok? && Abs(ParseOr(ts).tree) == e
  }

  // The results of the parser are exactly the `Parseable` ASTs.
  lemma ParserImage(e: Expr)
    ensures Parseable(e) <==> exists ts | Input(ts) :: Produces(ts, e)
  {
    if Parseable(e) {
      PrintedExprParsesBack(e, false);
      assert Produces(Spell(Print(e, false), END), e);
    }
    if ts :| Input(ts) && Produces(ts, e) {
      OrSound(ts);
      ParsedIsParseable(ParseOr(ts).tree);
    }
  }
}
