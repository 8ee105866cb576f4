// Which expressions can be written out as text: a condition on their names, numbers and literals
// (crates/cgx-cql/src/token.rs).
module Writable {
  import opened Prelude
  import opened Token
  import opened Ast
  import opened Syntax
  import opened ParserTheorems
  import Canonical

  type Test = TokenKind -> bool

  // ---- the names, numbers and literals of an expression ----

  predicate NamesOk(ss: seq<string>, ok: Test) {
    forall i | 0 <= i < |ss| :: ok(Ident(ss[i]))
  }

  predicate OptNameOk(v: Option<string>, ok: Test) {
    v.Some? ==> ok(Ident(v.value))
  }

  predicate ValueOk(v: Value, ok: Test) {
    match v
    case Int(n) => ok(TokenKind.Int(n))
    case Float(f) => ok(TokenKind.Float(f))
    case Str(text) => ok(TokenKind.Str(text))
    case List(items) => forall i | 0 <= i < |items| :: ValueOk(items[i], ok)
    case _ => true
  }

  predicate EntriesOk(ps: seq<PropEntry>, ok: Test) {
    forall i | 0 <= i < |ps| :: ok(Ident(ps[i].key)) && ValueOk(ps[i].value, ok)
  }

  predicate NodeOk(n: NodePat, ok: Test) {
    OptNameOk(n.v, ok) && OptNameOk(n.tag, ok) && EntriesOk(n.props, ok)
  }

  predicate BoundOk(b: Option<nat>, ok: Test) {
    b.Some? ==> ok(TokenKind.Int(b.value))
  }

  predicate RelOk(r: RelPat, ok: Test) {
    && OptNameOk(r.v, ok) && NamesOk(r.types, ok) && EntriesOk(r.props, ok)
    && (r.varLen.Some? ==> BoundOk(r.varLen.value.min, ok) && BoundOk(r.varLen.value.max, ok))
  }

  predicate StepsOk(ss: seq<Step>, ok: Test) {
    forall i | 0 <= i < |ss| :: RelOk(ss[i].rel, ok) && NodeOk(ss[i].node, ok)
  }

  predicate ExprOk(e: Expr, ok: Test) {
    match e
    case Literal(v) => ValueOk(v, ok)
    case Property(head, segments) => ok(Ident(head)) && NamesOk(segments, ok)
    case FunctionCall(name, args) =>
      ok(Ident(name)) && (IsStar(args) || forall i | 0 <= i < |args| :: ExprOk(args[i], ok))
    case ListComp(x, list, filter, projection) =>
      ok(Ident(x)) && ExprOk(list, ok) && (filter.Some? ==> ExprOk(filter.value, ok)) && ExprOk(projection, ok)
    case Quantifier(_, x, list, pred) => ok(Ident(x)) && ExprOk(list, ok) && ExprOk(pred, ok)
    case PatternPredicate(_, p) => NodeOk(p.start, ok) && StepsOk(p.steps, ok)
    case Binary(_, l, r) => ExprOk(l, ok) && ExprOk(r, ok)
    case Not(inner) => ExprOk(inner, ok)
  }

  // Every name is a word that no keyword takes, every integer is unsigned and fits 64 bits, and there
  // is no float.
  predicate CanBeWritten(e: Expr) {
    ExprOk(e, (k: TokenKind) => Canonical.Canonical(k))
  }

  // ---- its tokens ----

  // The tokens that carry no name, number or string.
  predicate Fixed(k: TokenKind) {
    !(k.Ident? || k.Int? || k.Float? || k.Str? || k.Eof?)
  }

  ghost predicate PassesFixed(ok: Test) {
    forall k :: Fixed(k) ==> ok(k)
  }

  // Every token before the final Eof passes.
  predicate Clean(ts: Tokens, ok: Test) {
    ts.Nil? || ts == END || (ok(ts.head) && Clean(ts.tail, ok))
  }

  lemma CleanFixed(k: TokenKind, ts: Tokens, ok: Test)
    requires PassesFixed(ok) && Fixed(k)
    ensures Clean(Cons(k, ts), ok) <==> Clean(ts, ok)
  {
  }

  lemma CleanWord(s: string, ts: Tokens, ok: Test)
    ensures Clean(Cons(Ident(s), ts), ok) <==> ok(Ident(s)) && Clean(ts, ok)
  {
  }

  lemma {:induction false} CleanLit(v: Value, k: Tokens, ok: Test)
    requires PassesFixed(ok) && IsLiteral(v)
    ensures Clean(SpellLit(v, k), ok) <==> ValueOk(v, ok) && Clean(k, ok)
    decreases v, 1
  {
    if v.List? {
      CleanLits(v.items, Cons(RBracket, k), ok);
    }
  }

  lemma {:induction false} CleanLits(vs: seq<Value>, k: Tokens, ok: Test)
    requires PassesFixed(ok) && forall i | 0 <= i < |vs| :: IsLiteral(vs[i])
    ensures Clean(SpellLits(vs, k), ok) <==> (forall i | 0 <= i < |vs| :: ValueOk(vs[i], ok)) && Clean(k, ok)
    decreases vs, 0
  {
    if |vs| == 1 {
      CleanLit(vs[0], k, ok);
    } else if vs != [] {
      CleanLits(vs[1..], k, ok);
      CleanLit(vs[0], Cons(Comma, SpellLits(vs[1..], k)), ok);
      assert forall i | 0 < i < |vs| :: vs[i] == vs[1..][i - 1];
    }
  }

  lemma EntriesCons(ps: seq<PropEntry>, ok: Test)
    requires ps != []
    ensures EntriesOk(ps, ok) <==> ok(Ident(ps[0].key)) && ValueOk(ps[0].value, ok) && EntriesOk(ps[1..], ok)
  {
    assert forall i | 0 < i < |ps| :: ps[i] == ps[1..][i - 1];
  }

  lemma {:induction false} CleanEntries(ps: seq<PropEntry>, k: Tokens, ok: Test)
    requires PassesFixed(ok) && PropsWf(ps)
    ensures Clean(SpellEntries(ps, k), ok) <==> EntriesOk(ps, ok) && Clean(k, ok)
    decreases |ps|
  {
    if ps != [] {
      var rest := if |ps| == 1 then k else Cons(Comma, SpellEntries(ps[1..], k));
      EntriesCons(ps, ok);
      CleanEntries(ps[1..], k, ok);
      CleanLit(ps[0].value, rest, ok);
      var value := SpellLit(ps[0].value, rest);
      CleanFixed(Colon, value, ok);
      CleanWord(ps[0].key, Cons(Colon, value), ok);
    }
  }

  lemma CleanProps(ps: seq<PropEntry>, k: Tokens, ok: Test)
    requires PassesFixed(ok) && PropsWf(ps)
    ensures Clean(SpellProps(PropsTree(ps), k), ok) <==> EntriesOk(ps, ok) && Clean(k, ok)
  {
    if ps != [] {
      CleanEntries(ps, Cons(RBrace, k), ok);
    }
  }

  lemma CleanOptIdent(v: Option<string>, k: Tokens, ok: Test)
    requires PassesFixed(ok)
    ensures Clean(SpellOptIdent(v, k), ok) <==> OptNameOk(v, ok) && Clean(k, ok)
    ensures Clean(SpellTag(v, k), ok) <==> OptNameOk(v, ok) && Clean(k, ok)
  {
    if v.Some? {
      CleanWord(v.value, k, ok);
      CleanFixed(Colon, Cons(Ident(v.value), k), ok);
    }
  }

  lemma CleanNode(n: NodePat, k: Tokens, ok: Test)
    requires PassesFixed(ok) && PropsWf(n.props)
    ensures NodeWf(NodeTree(n)) && (Clean(SpellNode(NodeTree(n), k), ok) <==> NodeOk(n, ok) && Clean(k, ok))
  {
    CleanFixed(RParen, k, ok);
    CleanProps(n.props, Cons(RParen, k), ok);
    var props := SpellProps(PropsTree(n.props), Cons(RParen, k));
    CleanOptIdent(n.tag, props, ok);
    CleanOptIdent(n.v, SpellTag(n.tag, props), ok);
    CleanFixed(LParen, SpellOptIdent(n.v, SpellTag(n.tag, props)), ok);
  }

  lemma NamesCons(ss: seq<string>, ok: Test)
    requires ss != []
    ensures NamesOk(ss, ok) <==> ok(Ident(ss[0])) && NamesOk(ss[1..], ok)
  {
    assert forall i | 0 < i < |ss| :: ss[i] == ss[1..][i - 1];
  }

  lemma {:induction false} CleanMoreTypes(ts: seq<string>, k: Tokens, ok: Test)
    requires PassesFixed(ok)
    ensures Clean(SpellMoreTypes(ts, k), ok) <==> NamesOk(ts, ok) && Clean(k, ok)
    decreases |ts|
  {
    if ts != [] {
      NamesCons(ts, ok);
      CleanMoreTypes(ts[1..], k, ok);
      CleanWord(ts[0], SpellMoreTypes(ts[1..], k), ok);
    }
  }

  lemma CleanTypes(ts: seq<string>, k: Tokens, ok: Test)
    requires PassesFixed(ok)
    ensures Clean(SpellTypes(ts, k), ok) <==> NamesOk(ts, ok) && Clean(k, ok)
  {
    if ts != [] {
      NamesCons(ts, ok);
      CleanMoreTypes(ts[1..], k, ok);
      CleanWord(ts[0], SpellMoreTypes(ts[1..], k), ok);
    }
  }

  lemma CleanBound(b: Option<nat>, k: Tokens, ok: Test)
    ensures Clean(SpellBound(b, k), ok) <==> BoundOk(b, ok) && Clean(k, ok)
  {
  }

  lemma CleanVarLen(l: Option<VarLen>, k: Tokens, ok: Test)
    requires PassesFixed(ok)
    ensures var t := if l.None? then None else Some(VarLenSyn(l.value.min, true, l.value.max));
      Clean(SpellVarLen(t, k), ok)
      <==> (l.Some? ==> BoundOk(l.value.min, ok) && BoundOk(l.value.max, ok)) && Clean(k, ok)
  {
    if l.Some? {
      CleanBound(l.value.max, k, ok);
      CleanBound(l.value.min, Cons(DotDot, SpellBound(l.value.max, k)), ok);
    }
  }

  // Between the brackets of a relationship.
  lemma CleanBody(r: RelPat, b: RelBody, k: Tokens, ok: Test)
    requires PassesFixed(ok) && PropsWf(r.props) && BodyWf(Some(b))
    requires b.v == r.v && b.types == r.types && b.props == PropsTree(r.props)
    requires b.varLen == if r.varLen.None? then None else Some(VarLenSyn(r.varLen.value.min, true, r.varLen.value.max))
    ensures Clean(SpellBody(Some(b), k), ok) <==> RelOk(r, ok) && Clean(k, ok)
  {
    var close := Cons(RBracket, k);
    CleanProps(r.props, close, ok);
    var props := SpellProps(b.props, close);
    CleanVarLen(r.varLen, props, ok);
    var varLen := SpellVarLen(b.varLen, props);
    CleanTypes(b.types, varLen, ok);
    var types := SpellTypes(b.types, varLen);
    CleanOptIdent(b.v, types, ok);
    CleanFixed(LBracket, SpellOptIdent(b.v, types), ok);
  }

  lemma CleanStep(s: Step, k: Tokens, ok: Test)
    requires PassesFixed(ok) && StepOk(s)
    ensures StepWf(StepTree(s))
    ensures Clean(SpellStep(StepTree(s), k), ok) <==> RelOk(s.rel, ok) && NodeOk(s.node, ok) && Clean(k, ok)
  {
    CleanNode(s.node, k, ok);
    var t, node := StepTree(s), SpellNode(NodeTree(s.node), k);
    var far := if s.rel.direction.Forward? then ArrowR else Dash;
    CleanFixed(far, node, ok);
    CleanBody(s.rel, t.rel.body.value, Cons(far, node), ok);
    CleanFixed(if s.rel.direction.Forward? then Dash else ArrowL, SpellBody(t.rel.body, Cons(far, node)), ok);
  }

  lemma StepsCons(ss: seq<Step>, ok: Test)
    requires ss != []
    ensures StepsOk(ss, ok) <==> RelOk(ss[0].rel, ok) && NodeOk(ss[0].node, ok) && StepsOk(ss[1..], ok)
  {
    assert forall i | 0 < i < |ss| :: ss[i] == ss[1..][i - 1];
  }

  lemma {:induction false} CleanSteps(ss: seq<Step>, ts: seq<StepSyn>, k: Tokens, ok: Test)
    requires PassesFixed(ok) && (forall i | 0 <= i < |ss| :: StepOk(ss[i])) && |ts| == |ss|
    requires forall i | 0 <= i < |ss| :: ts[i] == StepTree(ss[i])
    ensures StepsWf(ts) && (Clean(SpellSteps(ts, k), ok) <==> StepsOk(ss, ok) && Clean(k, ok))
    decreases |ss|
  {
    if ss != [] {
      CleanSteps(ss[1..], ts[1..], k, ok);
      CleanStep(ss[0], SpellSteps(ts[1..], k), ok);
      forall i | 0 <= i < |ts| ensures StepWf(ts[i]) {
        assert i > 0 ==> ts[i] == ts[1..][i - 1];
      }
      StepsCons(ss, ok);
    }
  }

  lemma CleanPath(p: PathPattern, k: Tokens, ok: Test)
    requires PassesFixed(ok) && PatternOk(p)
    ensures PathWf(PathTree(p))
    ensures Clean(SpellPath(PathTree(p), k), ok) <==> NodeOk(p.start, ok) && StepsOk(p.steps, ok) && Clean(k, ok)
  {
    var t := PathTree(p);
    CleanSteps(p.steps, t.steps, k, ok);
    CleanNode(p.start, SpellSteps(t.steps, k), ok);
  }

  lemma {:induction false} CleanSegments(ss: seq<string>, k: Tokens, ok: Test)
    requires PassesFixed(ok)
    ensures Clean(SpellSegments(ss, k), ok) <==> NamesOk(ss, ok) && Clean(k, ok)
    decreases |ss|
  {
    if ss != [] {
      NamesCons(ss, ok);
      CleanSegments(ss[1..], k, ok);
      CleanWord(ss[0], SpellSegments(ss[1..], k), ok);
    }
  }

  // ---- whole expressions ----

  lemma {:induction false} CleanExpr(e: Expr, full: bool, k: Tokens, ok: Test)
    requires PassesFixed(ok) && Parseable(e)
    ensures Wf(Print(e, full)) && (Clean(Spell(Print(e, full), k), ok) <==> ExprOk(e, ok) && Clean(k, ok))
    decreases e, 1
  {
    PrintIsFaithful(e, full);
    match e {
      case Literal(v) => CleanLit(v, k, ok);
      case Property(head, segments) =>
        CleanSegments(segments, k, ok);
        CleanWord(head, SpellSegments(segments, k), ok);
      case FunctionCall(_, _) => CleanCall(e, full, k, ok);
      case ListComp(_, _, _, _) => CleanComp(e, full, k, ok);
      case Quantifier(_, _, _, _) => CleanQuant(e, full, k, ok);
      case PatternPredicate(negated, p) =>
        CleanPath(p, k, ok);
        CleanFixed(KwNot, SpellPath(PathTree(p), k), ok);
      case Binary(_, _, _) => CleanBinary(e, full, k, ok);
      case Not(_) => CleanNot(e, full, k, ok);
    }
  }

  lemma {:induction false} CleanArgs(args: seq<Expr>, cs: seq<Syn>, full: bool, k: Tokens, ok: Test)
    requires PassesFixed(ok) && (forall i | 0 <= i < |args| :: Parseable(args[i])) && |cs| == |args|
    requires forall i | 0 <= i < |args| :: cs[i] == Print(args[i], full)
    ensures forall i | 0 <= i < |cs| :: Wf(cs[i])
    ensures Clean(SpellArgs(cs, k), ok) <==> (forall i | 0 <= i < |args| :: ExprOk(args[i], ok)) && Clean(k, ok)
    decreases args, 0
  {
    if |args| == 1 {
      CleanExpr(args[0], full, k, ok);
    } else if args != [] {
      CleanArgs(args[1..], cs[1..], full, k, ok);
      assert forall i | 0 < i < |args| :: args[i] == args[1..][i - 1] && cs[i] == cs[1..][i - 1];
      CleanExpr(args[0], full, Cons(Comma, SpellArgs(cs[1..], k)), ok);
      CleanFixed(Comma, SpellArgs(cs[1..], k), ok);
    }
  }

  lemma {:induction false} CleanCall(e: Expr, full: bool, k: Tokens, ok: Test)
    requires PassesFixed(ok) && Parseable(e) && Wf(Print(e, full)) && e.FunctionCall?
    ensures Clean(Spell(Print(e, full), k), ok) <==> ExprOk(e, ok) && Clean(k, ok)
    decreases e, 0
  {
    var args, close := e.args, Cons(RParen, k);
    CleanFixed(RParen, k, ok);
    var inner;
    if IsStar(args) {
      inner := Cons(Star, close);
      CleanFixed(Star, close, ok);
    } else {
      inner := SpellArgs(PrintArgs(args, full), close);
      CleanArgs(args, PrintArgs(args, full), full, close, ok);
    }
    CleanFixed(LParen, inner, ok);
    CleanWord(e.name, Cons(LParen, inner), ok);
    assert Spell(Print(e, full), k) == Cons(Ident(e.name), Cons(LParen, inner));
  }

  lemma {:induction false} CleanComp(e: Expr, full: bool, k: Tokens, ok: Test)
    requires PassesFixed(ok) && Parseable(e) && Wf(Print(e, full)) && e.ListComp?
    ensures Clean(Spell(Print(e, full), k), ok) <==> ExprOk(e, ok) && Clean(k, ok)
    decreases e, 0
  {
    var c, close := Print(e, full), Cons(RBracket, k);
    CleanFixed(RBracket, k, ok);
    CleanExpr(e.projection, full, close, ok);
    var bar := Cons(Pipe, Spell(c.projection, close));
    CleanFixed(Pipe, Spell(c.projection, close), ok);
    if e.filter.Some? {
      CleanExpr(e.filter.value, full, bar, ok);
      CleanFixed(KwWhere, Spell(c.filter.value, bar), ok);
    }
    var filter := SpellFilter(c.filter, bar);
    CleanExpr(e.list, full, filter, ok);
    CleanBinder(e.bound, Spell(c.list, filter), ok);
    CleanFixed(LBracket, Cons(Ident(e.bound), Cons(KwIn, Spell(c.list, filter))), ok);
  }

  lemma CleanBinder(x: string, k: Tokens, ok: Test)
    requires PassesFixed(ok)
    ensures Clean(Cons(Ident(x), Cons(KwIn, k)), ok) <==> ok(Ident(x)) && Clean(k, ok)
  {
    CleanFixed(KwIn, k, ok);
    CleanWord(x, Cons(KwIn, k), ok);
  }

  lemma CleanOpen(kind: QuantifierKind, x: string, k: Tokens, ok: Test)
    requires PassesFixed(ok)
    ensures Clean(Cons(QuantTok(kind), Cons(LParen, Cons(Ident(x), Cons(KwIn, k)))), ok)
       <==> ok(Ident(x)) && Clean(k, ok)
  {
    CleanBinder(x, k, ok);
    CleanFixed(LParen, Cons(Ident(x), Cons(KwIn, k)), ok);
    CleanFixed(QuantTok(kind), Cons(LParen, Cons(Ident(x), Cons(KwIn, k))), ok);
  }

  lemma {:induction false} CleanQuant(e: Expr, full: bool, k: Tokens, ok: Test)
    requires PassesFixed(ok) && Parseable(e) && Wf(Print(e, full)) && e.Quantifier?
    ensures Clean(Spell(Print(e, full), k), ok) <==> ExprOk(e, ok) && Clean(k, ok)
    decreases e, 0
  {
    var c, close := Print(e, full), Cons(RParen, k);
    CleanFixed(RParen, k, ok);
    CleanExpr(e.pred, full, close, ok);
    var where := Cons(KwWhere, Spell(c.pred, close));
    CleanFixed(KwWhere, Spell(c.pred, close), ok);
    CleanExpr(e.list, full, where, ok);
    CleanOpen(e.kind, e.bound, Spell(c.list, where), ok);
  }

  // An operand, in parentheses or not.
  lemma {:induction false} CleanOperand(e: Expr, full: bool, c: Syn, k: Tokens, ok: Test)
    requires PassesFixed(ok) && Parseable(e) && Wf(c) && (c == Print(e, full) || c == Group(Print(e, full)))
    ensures Clean(Spell(c, k), ok) <==> ExprOk(e, ok) && Clean(k, ok)
    decreases e, 2
  {
    if c == Print(e, full) {
      CleanExpr(e, full, k, ok);
    } else {
      CleanFixed(RParen, k, ok);
      CleanExpr(e, full, Cons(RParen, k), ok);
      CleanFixed(LParen, Spell(Print(e, full), Cons(RParen, k)), ok);
    }
  }

  lemma {:induction false} CleanBinary(e: Expr, full: bool, k: Tokens, ok: Test)
    requires PassesFixed(ok) && Parseable(e) && Wf(Print(e, full)) && e.Binary?
    ensures Clean(Spell(Print(e, full), k), ok) <==> ExprOk(e, ok) && Clean(k, ok)
    decreases e, 0
  {
    var c := Print(e, full);
    CleanOperand(e.rhs, full, c.rhs, k, ok);
    CleanFixed(OpTok(e.op), Spell(c.rhs, k), ok);
    CleanOperand(e.lhs, full, c.lhs, Cons(OpTok(e.op), Spell(c.rhs, k)), ok);
  }

  lemma {:induction false} CleanNot(e: Expr, full: bool, k: Tokens, ok: Test)
    requires PassesFixed(ok) && Parseable(e) && Wf(Print(e, full)) && e.Not?
    ensures Clean(Spell(Print(e, full), k), ok) <==> ExprOk(e, ok) && Clean(k, ok)
    decreases e, 0
  {
    var c := Print(e, full);
    CleanOperand(e.inner, full, c.operand, k, ok);
    CleanFixed(KwNot, Spell(c.operand, k), ok);
  }
}
