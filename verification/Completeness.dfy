// The completeness half of the parser's correctness: every spelling the grammar admits is parsed
// back to the tree it spells, so the lookaheads for patterns and comprehensions never misfire.
module Completeness {
  import opened Prelude
  import opened Token
  import V = Values
  import opened Ast
  import opened Syntax
  import opened Grammar

  // ---- what may follow a complete construct without being absorbed by it ----

  predicate EndsPrimary(k: Tokens) {
    Input(k) && k.head != Dot && k.head != LParen
  }

  predicate EndsOperand(k: Tokens) {
    && EndsPrimary(k) && k.head != Dash && k.head != ArrowL
    && ComparisonOp(k.head).None? && !(k.head.Ident? && IsIs(k.head.name))
  }

  predicate EndsConjunction(k: Tokens) {
    EndsOperand(k) && k.head != KwAnd
  }

  predicate EndsExpr(k: Tokens) {
    EndsConjunction(k) && k.head != KwOr
  }

  // ---- literals ----

  lemma {:induction false} LiteralParses(v: Value, k: Tokens)
    requires IsLiteral(v) && Input(k)
    ensures var ts := SpellLit(v, k);
            Input(ts) && ts.head != RBracket && !ts.head.Ident? && ParseLiteral(ts) == Success((v, k))
    decreases v, 0
  {
    if v.List? {
      if v.items != [] {
        LiteralsParse(v.items, Cons(RBracket, k));
      }
      ListParses(v.items, k);
    } else {
      ScalarParses(v, k);
    }
  }

  lemma ScalarParses(v: Value, k: Tokens)
    requires IsLiteral(v) && Input(k) && !v.List?
    ensures var ts := SpellLit(v, k);
            Input(ts) && ts.head != RBracket && !ts.head.Ident? && ParseLiteral(ts) == Success((v, k))
  {
  }

  lemma ListParses(items: seq<Value>, k: Tokens)
    requires IsLiteral(V.Value.List(items)) && Input(k)
    requires items != [] ==>
      var ts := SpellLits(items, Cons(RBracket, k));
      Input(ts) && ts.head != RBracket && ParseLiterals(ts) == Success((items, Cons(RBracket, k)))
    ensures var ts := SpellLit(V.Value.List(items), k);
            Input(ts) && ts.head == LBracket && ParseLiteral(ts) == Success((V.Value.List(items), k))
  {
  }

  lemma {:induction false} LiteralsParse(vs: seq<Value>, k: Tokens)
    requires vs != [] && (forall i | 0 <= i < |vs| :: IsLiteral(vs[i]))
    requires Input(k) && k.head != Comma
    ensures var ts := SpellLits(vs, k);
            Input(ts) && ts.head != RBracket && !ts.head.Ident? && ParseLiterals(ts) == Success((vs, k))
    decreases vs, 0
  {
    if |vs| == 1 {
      LiteralParses(vs[0], k);
      assert [vs[0]] + [] == vs;
    } else {
      LiteralsParse(vs[1..], k);
      LiteralParses(vs[0], Cons(Comma, SpellLits(vs[1..], k)));
      assert [vs[0]] + vs[1..] == vs;
    }
  }

  // ---- patterns ----

  lemma EntryParses(e: PropEntry, k: Tokens)
    requires IsLiteral(e.value) && Input(k)
    ensures var ts := Cons(Ident(e.key), Cons(Colon, SpellLit(e.value, k)));
            Input(ts) && ParseEntry(ts) == Success((e, k))
  {
    LiteralParses(e.value, k);
    var r := Cons(Colon, SpellLit(e.value, k));
    assert ParseIdent(Cons(Ident(e.key), r)) == Success((e.key, r));
    assert Expect(r, Colon) == Success(SpellLit(e.value, k));
  }

  lemma {:induction false} EntriesParse(ps: seq<PropEntry>, k: Tokens)
    requires ps != [] && PropsWf(ps) && Input(k) && k.head != Comma
    ensures var ts := SpellEntries(ps, k);
            Input(ts) && ts.head != RBrace && ParseEntries(ts) == Success((ps, k))
    decreases |ps|
  {
    var p, more := ps[0], ps[1..];
    assert [p] + more == ps;
    if |ps| == 1 {
      EntryParses(p, k);
    } else {
      var r := SpellEntries(more, k);
      EntriesParse(more, k);
      EntryParses(p, Cons(Comma, r));
      assert SpellEntries(ps, k) == Cons(Ident(p.key), Cons(Colon, SpellLit(p.value, Cons(Comma, r))));
      assert EntriesTail(Cons(Comma, r)) == Success((more, k));
    }
  }

  lemma {:induction false} PropsParse(ps: Option<seq<PropEntry>>, k: Tokens)
    requires (ps.Some? ==> PropsWf(ps.value)) && Input(k) && k.head != LBrace
    ensures var ts := SpellProps(ps, k);
            Input(ts) && (ts.head == LBrace || ts == k) && ParseOptProps(ts) == Success((ps, k))
  {
    if ps.Some? && ps.value != [] {
      EntriesParse(ps.value, Cons(RBrace, k));
    }
  }

  lemma OptIdentParses(v: Option<string>, k: Tokens)
    requires Input(k) && !k.head.Ident?
    ensures var ts := SpellOptIdent(v, k);
            Input(ts) && (ts.head.Ident? || ts == k) && ParseOptIdent(ts) == (v, k)
  {
  }

  lemma TagParses(v: Option<string>, k: Tokens)
    requires Input(k) && k.head != Colon
    ensures var ts := SpellTag(v, k);
            Input(ts) && (ts.head == Colon || ts == k) && ParseOptTag(ts) == Success((v, k))
  {
    if v.Some? {
      assert Input(Cons(Ident(v.value), k));
    }
  }

  lemma {:induction false} NodeParses(n: NodeSyn, k: Tokens)
    requires NodeWf(n) && Input(k)
    ensures Input(SpellNode(n, k)) && ParseNodePat(SpellNode(n, k)) == Success((n, k))
  {
    var k1 := Cons(RParen, k);
    PropsParse(n.props, k1);
    var k2 := SpellProps(n.props, k1);
    TagParses(n.tag, k2);
    var k3 := SpellTag(n.tag, k2);
    OptIdentParses(n.v, k3);
    assert SpellNode(n, k) == Cons(LParen, SpellOptIdent(n.v, k3));
  }

  lemma {:induction false} MoreTypesParse(ts: seq<string>, k: Tokens)
    requires Input(k) && k.head != Pipe && k.head != Colon
    ensures var l := SpellMoreTypes(ts, k);
            Input(l) && l.head != Colon && ParseMoreTypes(l) == Success((ts, k))
    decreases |ts|
  {
    if ts != [] {
      MoreTypesParse(ts[1..], k);
      assert [ts[0]] + ts[1..] == ts;
    }
  }

  lemma {:induction false} TypesParse(ts: seq<string>, k: Tokens)
    requires Input(k) && k.head != Pipe && k.head != Colon
    ensures var l := SpellTypes(ts, k);
            Input(l) && (l.head == Colon || l == k) && ParseOptTypes(l) == Success((ts, k))
  {
    if ts != [] {
      MoreTypesParse(ts[1..], k);
      assert [ts[0]] + ts[1..] == ts;
    }
  }

  lemma {:induction false} VarLenParses(l: Option<VarLenSyn>, k: Tokens)
    requires (l.Some? ==> VarLenWf(l.value))
    requires Input(k) && k.head != Star && k.head != DotDot && !k.head.Int?
    ensures var ts := SpellVarLen(l, k);
            Input(ts) && (ts.head == Star || ts == k) && ParseOptVarLen(ts) == Success((l, k))
  {
    if l.Some? {
      var after := if l.value.dots then Cons(DotDot, SpellBound(l.value.max, k)) else k;
      assert ParseOptBound(SpellBound(l.value.min, after)) == Success((l.value.min, after));
    }
  }

  lemma {:induction false} BodyParses(b: Option<RelBody>, k: Tokens)
    requires BodyWf(b) && Input(k) && k.head != LBracket
    ensures Input(SpellBody(b, k)) && ParseRelBody(SpellBody(b, k)) == Success((b, k))
  {
    if b.Some? {
      var k1 := Cons(RBracket, k);
      PropsParse(b.value.props, k1);
      var k2 := SpellProps(b.value.props, k1);
      VarLenParses(b.value.varLen, k2);
      var k3 := SpellVarLen(b.value.varLen, k2);
      TypesParse(b.value.types, k3);
      var k4 := SpellTypes(b.value.types, k3);
      OptIdentParses(b.value.v, k4);
      assert ParseRelTail(k3) == Success(((b.value.varLen, b.value.props), k));
      assert SpellBody(b, k) == Cons(LBracket, SpellOptIdent(b.value.v, k4));
    }
  }

  lemma {:induction false} RelParses(r: RelSyn, k: Tokens)
    requires BodyWf(r.body) && Input(k)
    ensures var ts := SpellRel(r, k);
            Input(ts) && (ts.head == Dash || ts.head == ArrowL) && ParseRelPat(ts) == Success((r, k))
  {
    BodyParses(r.body, Cons(if r.direction.Forward? then ArrowR else Dash, k));
  }

  lemma {:induction false} StepParses(s: StepSyn, k: Tokens)
    requires StepWf(s) && Input(k)
    ensures var ts := SpellStep(s, k);
            Input(ts) && (ts.head == Dash || ts.head == ArrowL) && ParseStep(ts) == Success((s, k))
  {
    NodeParses(s.node, k);
    RelParses(s.rel, SpellNode(s.node, k));
  }

  lemma StepsUnfold(ts: Tokens, s: StepSyn, r: Tokens, more: seq<StepSyn>, k: Tokens)
    requires Input(ts) && (ts.head == Dash || ts.head == ArrowL) && ParseStep(ts) == Success((s, r))
    requires Input(r) && ParseSteps(r) == Success((more, k))
    ensures ParseSteps(ts) == Success(([s] + more, k))
  {
  }

  lemma {:induction false} StepsInput(ss: seq<StepSyn>, k: Tokens)
    requires StepsWf(ss) && Input(k)
    ensures Input(SpellSteps(ss, k))
    ensures ss != [] ==> SpellSteps(ss, k).head == Dash || SpellSteps(ss, k).head == ArrowL
    decreases |ss|
  {
    if ss != [] {
      StepsInput(ss[1..], k);
      StepParses(ss[0], SpellSteps(ss[1..], k));
    }
  }

  lemma {:induction false} StepsParse(ss: seq<StepSyn>, k: Tokens)
    requires StepsWf(ss) && Input(k) && k.head != Dash && k.head != ArrowL
    requires Input(SpellSteps(ss, k))
    ensures ParseSteps(SpellSteps(ss, k)) == Success((ss, k))
    decreases |ss|
  {
    if ss != [] {
      var s, more, r := ss[0], ss[1..], SpellSteps(ss[1..], k);
      assert [s] + more == ss;
      StepsInput(more, k);
      StepsParse(more, k);
      StepParses(s, r);
      StepsUnfold(SpellStep(s, r), s, r, more, k);
      assert SpellSteps(ss, k) == SpellStep(s, r);
    }
  }

  lemma PathUnfold(ts: Tokens, v: Option<string>, k0: Tokens, start: NodeSyn, k1: Tokens, steps: seq<StepSyn>,
                   k: Tokens)
    requires Input(ts) && ParsePathVar(ts) == (v, k0)
    requires Input(k0) && ParseNodePat(k0) == Success((start, k1))
    requires Input(k1) && ParseSteps(k1) == Success((steps, k))
    ensures ParsePathPattern(ts) == Success((PathSyn(v, start, steps), k))
  {
  }

  lemma PathVarParses(v: Option<string>, k: Tokens)
    requires Input(k) && !k.head.Ident?
    ensures Input(SpellPathVar(v, k)) && ParsePathVar(SpellPathVar(v, k)) == (v, k)
  {
    assert Input(Cons(TokenKind.Eq, k));
  }

  lemma {:induction false} PathParses(p: PathSyn, k: Tokens)
    requires PathWf(p) && Input(k) && k.head != Dash && k.head != ArrowL
    ensures var ts := SpellPath(p, k);
            && Input(ts) && ParsePathPattern(ts) == Success((p, k))
            && ts.head == (if p.pathVar.None? then LParen else Ident(p.pathVar.value))
  {
    var k1 := SpellSteps(p.steps, k);
    StepsInput(p.steps, k);
    StepsParse(p.steps, k);
    NodeParses(p.start, k1);
    PathVarParses(p.pathVar, SpellNode(p.start, k1));
    PathUnfold(SpellPath(p, k), p.pathVar, SpellNode(p.start, k1), p.start, k1, p.steps, k);
  }

  // ---- the parenthesis scan passes over everything balanced ----

  predicate Plain(t: TokenKind) {
    t != LParen && t != RParen && t != Eof
  }

  lemma Skip(t: TokenKind, a: Tokens, d: nat)
    requires Plain(t)
    ensures ClosesBeforeArrow(Cons(t, a), d) == ClosesBeforeArrow(a, d)
  {
  }

  lemma Skip2(t: TokenKind, u: TokenKind, a: Tokens, d: nat)
    requires Plain(t) && Plain(u)
    ensures ClosesBeforeArrow(Cons(t, Cons(u, a)), d) == ClosesBeforeArrow(a, d)
  {
    Skip(t, Cons(u, a), d);
    Skip(u, a, d);
  }

  // `( a ) k`, where `a` runs up to its closing parenthesis.
  lemma SkipGroup(a: Tokens, k: Tokens, d: nat)
    requires d >= 1 && ClosesBeforeArrow(a, d + 1) == ClosesBeforeArrow(Cons(RParen, k), d + 1)
    ensures ClosesBeforeArrow(Cons(LParen, a), d) == ClosesBeforeArrow(k, d)
  {
  }

  lemma {:induction false} ScanLiteral(v: Value, k: Tokens, d: nat)
    requires IsLiteral(v)
    ensures ClosesBeforeArrow(SpellLit(v, k), d) == ClosesBeforeArrow(k, d)
    decreases v, 0
  {
    match v {
      case List(items) => ScanLiterals(items, Cons(RBracket, k), d);
      case _ =>
    }
  }

  lemma {:induction false} ScanLiterals(vs: seq<Value>, k: Tokens, d: nat)
    requires forall i | 0 <= i < |vs| :: IsLiteral(vs[i])
    ensures ClosesBeforeArrow(SpellLits(vs, k), d) == ClosesBeforeArrow(k, d)
    decreases vs, 0
  {
    if |vs| == 1 {
      ScanLiteral(vs[0], k, d);
    } else if vs != [] {
      ScanLiteral(vs[0], Cons(Comma, SpellLits(vs[1..], k)), d);
      ScanLiterals(vs[1..], k, d);
    }
  }

  lemma {:induction false} ScanEntries(ps: seq<PropEntry>, k: Tokens, d: nat)
    requires PropsWf(ps)
    ensures ClosesBeforeArrow(SpellEntries(ps, k), d) == ClosesBeforeArrow(k, d)
    decreases |ps|
  {
    if ps != [] {
      var k' := if |ps| == 1 then k else Cons(Comma, SpellEntries(ps[1..], k));
      if |ps| > 1 {
        ScanEntries(ps[1..], k, d);
        Skip(Comma, SpellEntries(ps[1..], k), d);
      }
      ScanLiteral(ps[0].value, k', d);
      Skip2(Ident(ps[0].key), Colon, SpellLit(ps[0].value, k'), d);
    }
  }

  lemma {:induction false} ScanProps(ps: Option<seq<PropEntry>>, k: Tokens, d: nat)
    requires ps.Some? ==> PropsWf(ps.value)
    ensures ClosesBeforeArrow(SpellProps(ps, k), d) == ClosesBeforeArrow(k, d)
  {
    if ps.Some? {
      ScanEntries(ps.value, Cons(RBrace, k), d);
    }
  }

  // From just inside a node pattern's `(` to just before its `)`.
  lemma {:induction false} ScanNodeBody(n: NodeSyn, k: Tokens, d: nat)
    requires NodeWf(n)
    ensures ClosesBeforeArrow(SpellNode(n, k), d) == ClosesBeforeArrow(Cons(RParen, k), d + 1)
  {
    ScanProps(n.props, Cons(RParen, k), d + 1);
    var k2 := SpellProps(n.props, Cons(RParen, k));
    assert ClosesBeforeArrow(SpellTag(n.tag, k2), d + 1) == ClosesBeforeArrow(k2, d + 1) by {
      if n.tag.Some? {
        assert SpellTag(n.tag, k2).tail == Cons(Ident(n.tag.value), k2);
      }
    }
  }

  lemma {:induction false} ScanMoreTypes(ts: seq<string>, k: Tokens, d: nat)
    ensures ClosesBeforeArrow(SpellMoreTypes(ts, k), d) == ClosesBeforeArrow(k, d)
    decreases |ts|
  {
    if ts != [] {
      ScanMoreTypes(ts[1..], k, d);
    }
  }

  lemma ScanTypes(ts: seq<string>, k: Tokens, d: nat)
    ensures ClosesBeforeArrow(SpellTypes(ts, k), d) == ClosesBeforeArrow(k, d)
  {
    if ts != [] {
      ScanMoreTypes(ts[1..], k, d);
      Skip2(Colon, Ident(ts[0]), SpellMoreTypes(ts[1..], k), d);
    }
  }

  lemma ScanVarLen(l: Option<VarLenSyn>, k: Tokens, d: nat)
    ensures ClosesBeforeArrow(SpellVarLen(l, k), d) == ClosesBeforeArrow(k, d)
  {
    if l.Some? {
      var k' := if l.value.dots then Cons(DotDot, SpellBound(l.value.max, k)) else k;
      assert ClosesBeforeArrow(k', d) == ClosesBeforeArrow(k, d);
      assert ClosesBeforeArrow(SpellBound(l.value.min, k'), d) == ClosesBeforeArrow(k', d);
    }
  }

  lemma ScanOptIdent(v: Option<string>, k: Tokens, d: nat)
    ensures ClosesBeforeArrow(SpellOptIdent(v, k), d) == ClosesBeforeArrow(k, d)
  {
  }

  lemma {:induction false} ScanBody(b: Option<RelBody>, k: Tokens, d: nat)
    requires BodyWf(b)
    ensures ClosesBeforeArrow(SpellBody(b, k), d) == ClosesBeforeArrow(k, d)
  {
    if b.Some? {
      var k1 := Cons(RBracket, k);
      Skip(RBracket, k, d);
      ScanProps(b.value.props, k1, d);
      var k2 := SpellProps(b.value.props, k1);
      ScanVarLen(b.value.varLen, k2, d);
      var k3 := SpellVarLen(b.value.varLen, k2);
      ScanTypes(b.value.types, k3, d);
      var k4 := SpellTypes(b.value.types, k3);
      ScanOptIdent(b.value.v, k4, d);
      Skip(LBracket, SpellOptIdent(b.value.v, k4), d);
    }
  }

  lemma {:induction false} ScanSteps(ss: seq<StepSyn>, k: Tokens, d: nat)
    requires StepsWf(ss) && d >= 1
    ensures ClosesBeforeArrow(SpellSteps(ss, k), d) == ClosesBeforeArrow(k, d)
    decreases |ss|
  {
    if ss != [] {
      ScanSteps(ss[1..], k, d);
      ScanStep(ss[0], SpellSteps(ss[1..], k), d);
    }
  }

  lemma ScanStep(s: StepSyn, k: Tokens, d: nat)
    requires StepWf(s) && d >= 1
    ensures ClosesBeforeArrow(SpellStep(s, k), d) == ClosesBeforeArrow(k, d)
  {
    var k1 := SpellNode(s.node, k);
    ScanNodeBody(s.node, k, d);
    var close := if s.rel.direction.Forward? then ArrowR else Dash;
    Skip(close, k1, d);
    ScanBody(s.rel.body, Cons(close, k1), d);
  }

  lemma {:induction false} ScanPath(p: PathSyn, k: Tokens, d: nat)
    requires PathWf(p) && d >= 1
    ensures ClosesBeforeArrow(SpellPath(p, k), d) == ClosesBeforeArrow(k, d)
  {
    ScanSteps(p.steps, k, d);
    ScanNodeBody(p.start, SpellSteps(p.steps, k), d);
  }

  lemma {:induction false} ScanSegments(s: seq<string>, k: Tokens, d: nat)
    ensures ClosesBeforeArrow(SpellSegments(s, k), d) == ClosesBeforeArrow(k, d)
    decreases |s|
  {
    if s != [] {
      ScanSegments(s[1..], k, d);
    }
  }

  lemma {:induction false} ScanExpr(c: Syn, k: Tokens, d: nat)
    requires Wf(c) && d >= 1
    ensures ClosesBeforeArrow(Spell(c, k), d) == ClosesBeforeArrow(k, d)
    decreases c, 1
  {
    match c {
      case Lit(v) => ScanLiteral(v, k, d);
      case Prop(_, segments) => ScanSegments(segments, k, d);
      case Call(name, args) => ScanCall(name, args, k, d);
      case CallStar(name) => ScanCallStar(name, k, d);
      case Comp(_, _, _, _) => ScanComprehension(c, k, d);
      case Quant(_, _, _, _) => ScanQuantifier(c, k, d);
      case Group(inner) =>
        ScanExpr(inner, Cons(RParen, k), d + 1);
        SkipGroup(Spell(inner, Cons(RParen, k)), k, d);
      case Pat(_, p) =>
        ScanPath(p, k, d);
        Skip(KwNot, SpellPath(p, k), d);
      case Bin(op, l, r) =>
        ScanExpr(r, k, d);
        ScanExpr(l, Cons(OpTok(op), Spell(r, k)), d);
        ScanBin(op, l, r, k, d);
      case Neg(e) =>
        ScanExpr(e, k, d);
        Skip(KwNot, Spell(e, k), d);
    }
  }

  lemma ScanBin(op: BinOp, l: Syn, r: Syn, k: Tokens, d: nat)
    requires Wf(Bin(op, l, r))
    requires ClosesBeforeArrow(Spell(r, k), d) == ClosesBeforeArrow(k, d)
    requires var k1 := Cons(OpTok(op), Spell(r, k));
      ClosesBeforeArrow(Spell(l, k1), d) == ClosesBeforeArrow(k1, d)
    ensures ClosesBeforeArrow(Spell(Bin(op, l, r), k), d) == ClosesBeforeArrow(k, d)
  {
    Skip(OpTok(op), Spell(r, k), d);
    assert Spell(Bin(op, l, r), k) == Spell(l, Cons(OpTok(op), Spell(r, k)));
  }

  lemma ScanCallStar(name: string, k: Tokens, d: nat)
    requires d >= 1
    ensures ClosesBeforeArrow(Spell(CallStar(name), k), d) == ClosesBeforeArrow(k, d)
  {
    Skip(Star, Cons(RParen, k), d + 1);
    SkipGroup(Cons(Star, Cons(RParen, k)), k, d);
    Skip(Ident(name), Cons(LParen, Cons(Star, Cons(RParen, k))), d);
  }

  lemma {:induction false} ScanCall(name: string, args: seq<Syn>, k: Tokens, d: nat)
    requires (forall i | 0 <= i < |args| :: Wf(args[i])) && d >= 1
    ensures ClosesBeforeArrow(Spell(Call(name, args), k), d) == ClosesBeforeArrow(k, d)
    decreases Call(name, args), 0
  {
    var a := SpellArgs(args, Cons(RParen, k));
    ScanArgs(args, Cons(RParen, k), d + 1);
    SkipGroup(a, k, d);
    Skip(Ident(name), Cons(LParen, a), d);
    assert Spell(Call(name, args), k) == Cons(Ident(name), Cons(LParen, a));
  }

  lemma {:induction false} ScanArgs(args: seq<Syn>, k: Tokens, d: nat)
    requires (forall i | 0 <= i < |args| :: Wf(args[i])) && d >= 1
    ensures ClosesBeforeArrow(SpellArgs(args, k), d) == ClosesBeforeArrow(k, d)
    decreases args, 0
  {
    if |args| == 1 {
      ScanExpr(args[0], k, d);
    } else if args != [] {
      ScanExpr(args[0], Cons(Comma, SpellArgs(args[1..], k)), d);
      ScanArgs(args[1..], k, d);
    }
  }

  lemma {:induction false} ScanComprehension(c: Syn, k: Tokens, d: nat)
    requires c.Comp? && Wf(c) && d >= 1
    ensures ClosesBeforeArrow(Spell(c, k), d) == ClosesBeforeArrow(k, d)
    decreases c, 0
  {
    var tail := Cons(Pipe, Spell(c.projection, Cons(RBracket, k)));
    ScanExpr(c.projection, Cons(RBracket, k), d);
    Skip(RBracket, k, d);
    Skip(Pipe, Spell(c.projection, Cons(RBracket, k)), d);
    var mid := SpellFilter(c.filter, tail);
    if c.filter.Some? {
      ScanExpr(c.filter.value, tail, d);
      Skip(KwWhere, Spell(c.filter.value, tail), d);
    }
    ScanExpr(c.list, mid, d);
    Skip(KwIn, Spell(c.list, mid), d);
    Skip2(LBracket, Ident(c.bound), Cons(KwIn, Spell(c.list, mid)), d);
  }

  lemma {:induction false} ScanQuantifier(c: Syn, k: Tokens, d: nat)
    requires c.Quant? && Wf(c) && d >= 1
    ensures ClosesBeforeArrow(Spell(c, k), d) == ClosesBeforeArrow(k, d)
    decreases c, 0
  {
    var after, inner := Spell(c.pred, Cons(RParen, k)), d + 1;
    assert ClosesBeforeArrow(after, inner) == ClosesBeforeArrow(Cons(RParen, k), inner) by {
      ScanExpr(c.pred, Cons(RParen, k), inner);
    }
    assert ClosesBeforeArrow(Spell(c.list, Cons(KwWhere, after)), inner)
        == ClosesBeforeArrow(Cons(KwWhere, after), inner) by {
      ScanExpr(c.list, Cons(KwWhere, after), inner);
    }
    ScanQuantParts(c.kind, c.bound, c.list, c.pred, after, k, d);
  }

  lemma ScanQuantParts(q: QuantifierKind, x: string, list: Syn, pred: Syn, after: Tokens, k: Tokens, d: nat)
    requires Wf(list) && Wf(pred) && d >= 1 && after == Spell(pred, Cons(RParen, k))
    requires ClosesBeforeArrow(Spell(list, Cons(KwWhere, after)), d + 1)
          == ClosesBeforeArrow(Cons(KwWhere, after), d + 1)
    requires ClosesBeforeArrow(after, d + 1) == ClosesBeforeArrow(Cons(RParen, k), d + 1)
    ensures ClosesBeforeArrow(Spell(Quant(q, x, list, pred), k), d) == ClosesBeforeArrow(k, d)
  {
    SpellQuant(q, x, list, pred, after, k);
    SkipQuantifier(q, x, Spell(list, Cons(KwWhere, after)), after, k, d);
  }

  lemma SpellQuant(q: QuantifierKind, x: string, list: Syn, pred: Syn, after: Tokens, k: Tokens)
    requires Wf(Quant(q, x, list, pred)) && after == Spell(pred, Cons(RParen, k))
    ensures Spell(Quant(q, x, list, pred), k)
         == Cons(QuantTok(q), Cons(LParen, Cons(Ident(x), Cons(KwIn, Spell(list, Cons(KwWhere, after))))))
  {
  }

  lemma SkipQuantifier(q: QuantifierKind, x: string, list: Tokens, after: Tokens, k: Tokens, d: nat)
    requires d >= 1
    requires ClosesBeforeArrow(list, d + 1) == ClosesBeforeArrow(Cons(KwWhere, after), d + 1)
    requires ClosesBeforeArrow(after, d + 1) == ClosesBeforeArrow(Cons(RParen, k), d + 1)
    ensures ClosesBeforeArrow(Cons(QuantTok(q), Cons(LParen, Cons(Ident(x), Cons(KwIn, list)))), d)
         == ClosesBeforeArrow(k, d)
  {
    Skip(KwWhere, after, d + 1);
    Skip2(Ident(x), KwIn, list, d + 1);
    SkipGroup(Cons(Ident(x), Cons(KwIn, list)), k, d);
    Skip(QuantTok(q), Cons(LParen, Cons(Ident(x), Cons(KwIn, list))), d);
  }

  // ---- what the parser sees first ----

  lemma {:induction false} FirstToken(c: Syn, k: Tokens)
    requires Wf(c)
    ensures Spell(c, k).Cons? && Spell(c, k).head != Star && Spell(c, k).head != RParen
    ensures Level(c) >= 3 ==> Spell(c, k).head != KwNot
    decreases c
  {
    match c {
      case Bin(op, l, r) =>
        FirstToken(l, Cons(OpTok(op), Spell(r, k)));
        assert Spell(c, k) == Spell(l, Cons(OpTok(op), Spell(r, k)));
      case Pat(_, _) =>
      case _ =>
    }
  }

  lemma {:induction false} PatternStarts(p: PathSyn, k: Tokens)
    requires PathWf(p) && p.pathVar.None? && p.steps != [] && Input(k)
    ensures var ts := SpellPath(p, k); Input(ts) && StartsPattern(ts)
  {
    var r := SpellSteps(p.steps, k);
    StepsInput(p.steps, k);
    NodeParses(p.start, r);
    ScanNodeBody(p.start, r, 0);
    assert SpellPath(p, k) == SpellNode(p.start, r);
  }

  lemma {:induction false} PrimaryIsNotPattern(c: Syn, k: Tokens)
    requires Wf(c) && Level(c) == 4 && Input(Spell(c, k))
    requires k.Cons? && k.head != Dash && k.head != ArrowL
    ensures !StartsPattern(Spell(c, k))
  {
    if c.Group? {
      var a := Spell(c.inner, Cons(RParen, k));
      ScanExpr(c.inner, Cons(RParen, k), 1);
      assert Spell(c, k) == Cons(LParen, a);
    }
  }

  lemma {:induction false} OperandIsNotPattern(c: Syn, k: Tokens)
    requires Wf(c) && Level(c) >= 2 && !BarePattern(c) && EndsOperand(k) && Input(Spell(c, k))
    ensures !StartsPattern(Spell(c, k))
  {
    if Level(c) == 4 {
      PrimaryIsNotPattern(c, k);
    } else if Level(c) == 3 {
      var k' := Cons(OpTok(c.op), Spell(c.rhs, k));
      assert Spell(c, k) == Spell(c.lhs, k');
      PrimaryIsNotPattern(c.lhs, k');
    }
  }

  // ---- expressions, one lemma per precedence level ----

  lemma {:induction false} ExprParses(c: Syn, k: Tokens)
    requires Wf(c) && EndsExpr(k)
    ensures Input(Spell(c, k)) && ParseOr(Spell(c, k)) == Ok(c, k)
    decreases c, 6
  {
    OrParses(c, k);
  }

  lemma {:induction false} ClosedParses(c: Syn, close: TokenKind, k: Tokens)
    requires Wf(c) && Input(k) && (close == RParen || close == RBracket)
    ensures var ts := Spell(c, Cons(close, k)); Input(ts) && ParseClosed(ts, close) == Ok(c, k)
    decreases c, 7
  {
    ExprParses(c, Cons(close, k));
  }

  lemma {:induction false} OrParses(c: Syn, k: Tokens)
    requires Wf(c) && EndsConjunction(k)
    ensures Input(Spell(c, k)) && ParseOr(Spell(c, k)) == OrTail(c, k)
    decreases c, 5
  {
    if Level(c) >= 1 {
      AndParses(c, k);
    } else {
      var l, r := c.lhs, c.rhs;
      Junction(c);
      var k1 := Cons(KwOr, Spell(r, k));
      assert Input(k1) && OrTail(l, k1) == OrTail(c, k) by {
        AndParses(r, k);
        OrUnfold(l, r, k1, Spell(r, k), k);
      }
      OrParses(l, k1);
      assert Spell(c, k) == Spell(l, k1);
    }
  }

  lemma OrUnfold(l: Syn, r: Syn, k1: Tokens, k2: Tokens, k: Tokens)
    requires Input(k1) && k1 == Cons(KwOr, k2) && Input(k2) && ParseAnd(k2) == Ok(r, k)
    ensures OrTail(l, k1) == OrTail(Bin(OpOr, l, r), k)
  {
    assert Next(k1) == k2;
  }

  lemma AndUnfold(l: Syn, r: Syn, k1: Tokens, k2: Tokens, k: Tokens)
    requires Input(k1) && k1 == Cons(KwAnd, k2) && Input(k2) && ParseNot(k2) == Ok(r, k)
    ensures AndTail(l, k1) == AndTail(Bin(OpAnd, l, r), k)
  {
    assert Next(k1) == k2;
  }

  // The two weakest levels are the disjunctions and the conjunctions.
  lemma Junction(c: Syn)
    requires Wf(c) && Level(c) <= 1
    ensures c.Bin? && c == Bin(if Level(c) == 0 then OpOr else OpAnd, c.lhs, c.rhs)
    ensures Wf(c.lhs) && Wf(c.rhs) && Level(c.lhs) >= Level(c) && Level(c.rhs) > Level(c)
  {
  }

  lemma {:induction false} AndParses(c: Syn, k: Tokens)
    requires Wf(c) && Level(c) >= 1 && EndsOperand(k)
    ensures Input(Spell(c, k)) && ParseAnd(Spell(c, k)) == AndTail(c, k)
    decreases c, 4
  {
    if Level(c) >= 2 {
      NotParses(c, k);
    } else {
      var l, r := c.lhs, c.rhs;
      Junction(c);
      var k1 := Cons(KwAnd, Spell(r, k));
      assert Input(k1) && AndTail(l, k1) == AndTail(c, k) by {
        NotParses(r, k);
        AndUnfold(l, r, k1, Spell(r, k), k);
      }
      AndParses(l, k1);
      assert Spell(c, k) == Spell(l, k1);
    }
  }

  lemma {:induction false} NotParses(c: Syn, k: Tokens)
    requires Wf(c) && Level(c) >= 2 && EndsOperand(k)
    ensures Input(Spell(c, k)) && ParseNot(Spell(c, k)) == Ok(c, k)
    decreases c, 3
  {
    match c {
      case Neg(e) =>
        NotParses(e, k);
        OperandIsNotPattern(e, k);
        var ts := Spell(e, k);
        assert ParseNegated(ts) == Ok(c, k);
        assert Spell(c, k) == Cons(KwNot, ts);
      case Pat(negated, p) => PatternPredicateParses(negated, p, k);
      case _ =>
        ComparisonParses(c, k);
        FirstToken(c, k);
        OperandIsNotPattern(c, k);
    }
  }

  lemma {:induction false} PatternPredicateParses(negated: bool, p: PathSyn, k: Tokens)
    requires PathWf(p) && p.pathVar.None? && p.steps != [] && EndsOperand(k)
    ensures var c := Pat(negated, p);
            Input(Spell(c, k)) && ParseNot(Spell(c, k)) == Ok(c, k)
  {
    PathParses(p, k);
    PatternStarts(p, k);
    var ts := SpellPath(p, k);
    assert ParsePatternPredicate(negated, ts) == Ok(Pat(negated, p), k);
    assert Spell(Pat(negated, p), k) == if negated then Cons(KwNot, ts) else ts;
  }

  lemma {:induction false} ComparisonParses(c: Syn, k: Tokens)
    requires Wf(c) && Level(c) >= 3 && EndsOperand(k)
    ensures Input(Spell(c, k)) && ParseComparison(Spell(c, k)) == Ok(c, k)
    decreases c, 2
  {
    if Level(c) == 4 {
      PrimaryParses(c, k);
    } else {
      var op, l, r := c.op, c.lhs, c.rhs;
      PrimaryParses(r, k);
      var k1 := Cons(OpTok(op), Spell(r, k));
      PrimaryParses(l, k1);
      ComparisonUnfold(Spell(l, k1), op, l, r, k1, Spell(r, k), k);
      assert Spell(c, k) == Spell(l, k1);
      assert c == Bin(op, l, r);
    }
  }

  lemma ComparisonUnfold(ts: Tokens, op: BinOp, l: Syn, r: Syn, k1: Tokens, k2: Tokens, k: Tokens)
    requires op != OpOr && op != OpAnd
    requires Input(ts) && ParsePrimary(ts) == Ok(l, k1)
    requires Input(k1) && k1 == Cons(OpTok(op), k2)
    requires Input(k2) && ParsePrimary(k2) == Ok(r, k)
    ensures ParseComparison(ts) == Ok(Bin(op, l, r), k)
  {
    ComparesBy(op);
    assert Next(k1) == k2;
  }

  lemma ComparesBy(op: BinOp)
    requires op != OpOr && op != OpAnd
    ensures ComparisonOp(OpTok(op)) == Some(op) && !OpTok(op).Ident?
  {
  }

  lemma {:induction false} PrimaryParses(c: Syn, k: Tokens)
    requires Wf(c) && Level(c) == 4 && EndsPrimary(k)
    ensures Input(Spell(c, k)) && ParsePrimary(Spell(c, k)) == Ok(c, k)
    decreases c, 1
  {
    match c {
      case Lit(v) => LiteralIsPrimary(v, k);
      case Prop(head, segments) => PropertyParses(head, segments, k);
      case Call(name, args) => CallParses(name, args, k);
      case CallStar(name) =>
        var ts := Cons(Ident(name), Cons(LParen, Cons(Star, Cons(RParen, k))));
        assert Spell(c, k) == ts;
        assert Input(Cons(Star, Cons(RParen, k)));
        assert Next(Next(ts)) == Cons(Star, Cons(RParen, k));
      case Comp(x, list, filter, projection) => CompParses(x, list, filter, projection, k);
      case Quant(q, x, list, pred) => QuantParses(q, x, list, pred, k);
      case Group(inner) =>
        ClosedParses(inner, RParen, k);
        assert Spell(c, k) == Cons(LParen, Spell(inner, Cons(RParen, k)));
    }
  }

  lemma {:induction false} LiteralIsPrimary(v: Value, k: Tokens)
    requires IsLiteral(v) && Input(k)
    ensures Input(Spell(Lit(v), k)) && ParsePrimary(Spell(Lit(v), k)) == Ok(Lit(v), k)
  {
    LiteralParses(v, k);
    var ts := SpellLit(v, k);
    assert Spell(Lit(v), k) == ts;
    if v.List? {
      if v.items != [] {
        LiteralsParse(v.items, Cons(RBracket, k));
      }
      assert !BracketIsComprehension(ts);
      assert ParseListLiteral(ts) == Success((v, k));
    }
  }

  lemma {:induction false} SegmentsParse(s: seq<string>, k: Tokens)
    requires EndsPrimary(k)
    ensures var ts := SpellSegments(s, k);
            Input(ts) && ts.head != LParen && ParseSegments(ts) == Success((s, k))
    decreases |s|
  {
    if s != [] {
      var more, r := s[1..], SpellSegments(s[1..], k);
      SegmentsParse(more, k);
      assert [s[0]] + more == s;
      assert SpellSegments(s, k) == Cons(Dot, Cons(Ident(s[0]), r));
      assert ParseIdent(Cons(Ident(s[0]), r)) == Success((s[0], r));
    }
  }

  lemma {:induction false} PropertyParses(head: string, segments: seq<string>, k: Tokens)
    requires EndsPrimary(k)
    ensures var c := Prop(head, segments);
            Input(Spell(c, k)) && ParsePrimary(Spell(c, k)) == Ok(c, k)
  {
    SegmentsParse(segments, k);
    assert Spell(Prop(head, segments), k) == Cons(Ident(head), SpellSegments(segments, k));
  }

  lemma {:induction false} ArgsParse(args: seq<Syn>, k: Tokens)
    requires args != [] && (forall i | 0 <= i < |args| :: Wf(args[i])) && Input(k) && k.head == RParen
    ensures var ts := SpellArgs(args, k);
            && Input(ts) && ts.head != Star && ts.head != RParen
            && ParseArgs(ts) == OkArgs(args, k)
    decreases args, 0
  {
    var a, more := args[0], args[1..];
    assert [a] + more == args;
    if |args| == 1 {
      ExprParses(a, k);
      FirstToken(a, k);
      ArgsUnfold(Spell(a, k), a, k, [], k);
    } else {
      var r := SpellArgs(more, k);
      ArgsParse(more, k);
      MoreArgsParse(a, r, more, k);
      assert SpellArgs(args, k) == Spell(a, Cons(Comma, r));
    }
  }

  lemma {:induction false} MoreArgsParse(a: Syn, r: Tokens, more: seq<Syn>, k: Tokens)
    requires Wf(a) && Input(r) && ParseArgs(r) == OkArgs(more, k)
    ensures var ts := Spell(a, Cons(Comma, r));
            && Input(ts) && ts.head != Star && ts.head != RParen
            && ParseArgs(ts) == OkArgs([a] + more, k)
    decreases a, 8
  {
    ExprParses(a, Cons(Comma, r));
    FirstToken(a, Cons(Comma, r));
    ArgsUnfold(Spell(a, Cons(Comma, r)), a, Cons(Comma, r), more, k);
  }

  lemma ArgsUnfold(ts: Tokens, a: Syn, mid: Tokens, more: seq<Syn>, k: Tokens)
    requires Input(ts) && ParseOr(ts) == Ok(a, mid) && Input(mid)
    requires if mid.head == Comma then ParseArgs(Next(mid)) == OkArgs(more, k) else more == [] && mid == k
    ensures ParseArgs(ts) == OkArgs([a] + more, k)
  {
    assert ArgsTail(mid) == OkArgs(more, k);
    assert [a] + [] == [a];
  }

  lemma CallDispatch(ts: Tokens)
    requires Input(ts) && ts.head.Ident? && ts.tail.head == LParen
    ensures ParsePrimary(ts) == ParseFunctionCall(ts)
  {
  }

  lemma CompDispatch(x: string, r: Tokens)
    requires Input(r)
    ensures var ts := Cons(LBracket, Cons(Ident(x), Cons(KwIn, r)));
            Input(ts) && ParsePrimary(ts) == ParseListComp(ts)
  {
    var r1 := Cons(KwIn, r);
    var r2 := Cons(Ident(x), r1);
    assert Input(r1) && Input(r2);
    var ts := Cons(LBracket, r2);
    assert ParsePrimary(ts) == ParseBracket(ts);
    assert BracketIsComprehension(ts);
  }

  lemma QuantDispatch(q: QuantifierKind, r: Tokens)
    requires Input(r)
    ensures ParsePrimary(Cons(QuantTok(q), r)) == ParseQuantifier(Cons(QuantTok(q), r))
  {
  }

  lemma CallUnfold(name: string, args: seq<Syn>, r: Tokens, k: Tokens)
    requires forall i | 0 <= i < |args| :: Wf(args[i])
    requires Input(r) && Input(k) && r.head != Star
    requires if args == [] then r == Cons(RParen, k)
             else r.head != RParen && ParseArgs(r) == OkArgs(args, Cons(RParen, k))
    ensures var ts := Cons(Ident(name), Cons(LParen, r));
            Input(ts) && ParseFunctionCall(ts) == Ok(Call(name, args), k)
  {
    var ts := Cons(Ident(name), Cons(LParen, r));
    assert Input(Cons(LParen, r));
    assert Next(Next(ts)) == r;
    assert ParseOptArgs(r) == OkArgs(args, Cons(RParen, k));
  }

  lemma {:induction false} CallParses(name: string, args: seq<Syn>, k: Tokens)
    requires (forall i | 0 <= i < |args| :: Wf(args[i])) && EndsPrimary(k)
    ensures var c := Call(name, args);
            Input(Spell(c, k)) && ParsePrimary(Spell(c, k)) == Ok(c, k)
    decreases Call(name, args), 0
  {
    var r := SpellArgs(args, Cons(RParen, k));
    if args != [] {
      ArgsParse(args, Cons(RParen, k));
    }
    CallUnfold(name, args, r, k);
    CallDispatch(Cons(Ident(name), Cons(LParen, r)));
    assert Spell(Call(name, args), k) == Cons(Ident(name), Cons(LParen, r));
  }

  lemma {:induction false} BinderParses(x: string, list: Syn, k: Tokens)
    requires Wf(list) && EndsExpr(k)
    ensures var ts := Cons(Ident(x), Cons(KwIn, Spell(list, k)));
            Input(ts) && ParseBinder(ts) == OkHead(x, list, None, k)
    decreases list, 7
  {
    ExprParses(list, k);
    var r := Cons(KwIn, Spell(list, k));
    assert ParseIdent(Cons(Ident(x), r)) == Success((x, r));
    assert Expect(r, KwIn) == Success(Spell(list, k));
  }

  lemma {:induction false} CompParses(x: string, list: Syn, filter: Option<Syn>, projection: Syn, k: Tokens)
    requires Wf(Comp(x, list, filter, projection)) && Input(k)
    ensures var c := Comp(x, list, filter, projection);
            Input(Spell(c, k)) && ParsePrimary(Spell(c, k)) == Ok(c, k)
    decreases Comp(x, list, filter, projection), 0, 1
  {
    var proj := Spell(projection, Cons(RBracket, k));
    var tail := Cons(Pipe, proj);
    var r := Spell(list, SpellFilter(filter, tail));
    var b := Cons(Ident(x), Cons(KwIn, r));
    ClosedParses(projection, RBracket, k);
    CompHeadParses(x, list, filter, tail, Comp(x, list, filter, projection));
    CompUnfold(b, x, list, filter, tail, proj, projection, k);
    CompDispatch(x, r);
    SpellComp(x, list, filter, projection, k);
  }

  lemma SpellComp(x: string, list: Syn, filter: Option<Syn>, projection: Syn, k: Tokens)
    requires Wf(Comp(x, list, filter, projection))
    ensures var tail := Cons(Pipe, Spell(projection, Cons(RBracket, k)));
      Spell(Comp(x, list, filter, projection), k)
      == Cons(LBracket, Cons(Ident(x), Cons(KwIn, Spell(list, SpellFilter(filter, tail)))))
  {
  }

  lemma {:induction false} CompHeadParses(x: string, list: Syn, filter: Option<Syn>, tail: Tokens, c: Syn)
    requires c.Comp? && c.list == list && c.filter == filter
    requires Wf(list) && (filter.Some? ==> Wf(filter.value)) && Input(tail) && tail.head == Pipe
    ensures var r := Spell(list, SpellFilter(filter, tail));
      var b := Cons(Ident(x), Cons(KwIn, r));
      Input(r) && Input(b) && ParseCompHead(b) == OkHead(x, list, filter, tail)
    decreases c, 0, 0
  {
    var mid := SpellFilter(filter, tail);
    FilterParses(filter, tail);
    BinderParses(x, list, mid);
    CompHeadUnfold(Cons(Ident(x), Cons(KwIn, Spell(list, mid))), x, list, mid, filter, tail);
  }

  lemma {:induction false} FilterParses(filter: Option<Syn>, tail: Tokens)
    requires Input(tail) && tail.head == Pipe && (filter.Some? ==> Wf(filter.value))
    ensures var mid := SpellFilter(filter, tail);
      && Input(mid)
      && if filter.None? then mid == tail else mid.head == KwWhere && ParseOr(Next(mid)) == Ok(filter.value, tail)
    decreases filter, 8
  {
    if filter.Some? {
      ExprParses(filter.value, tail);
    }
  }

  lemma CompUnfold(b: Tokens, x: string, list: Syn, filter: Option<Syn>, tail: Tokens, proj: Tokens, projection: Syn,
                   k: Tokens)
    requires Input(b) && ParseCompHead(b) == OkHead(x, list, filter, tail)
    requires Input(tail) && tail == Cons(Pipe, proj)
    requires Input(proj) && ParseClosed(proj, RBracket) == Ok(projection, k)
    ensures ParseListComp(Cons(LBracket, b)) == Ok(Comp(x, list, filter, projection), k)
  {
    assert ParseLast(tail, Pipe, RBracket) == Ok(projection, k);
  }

  lemma CompHeadUnfold(b: Tokens, x: string, list: Syn, mid: Tokens, filter: Option<Syn>, tail: Tokens)
    requires Input(b) && ParseBinder(b) == OkHead(x, list, None, mid)
    requires Input(mid) && Input(tail) && tail.head == Pipe
    requires filter.None? ==> mid == tail
    requires filter.Some? ==> mid.head == KwWhere && ParseOr(Next(mid)) == Ok(filter.value, tail)
    ensures ParseCompHead(b) == OkHead(x, list, filter, tail)
  {
  }

  lemma {:induction false} QuantParses(q: QuantifierKind, x: string, list: Syn, pred: Syn, k: Tokens)
    requires Wf(list) && Wf(pred) && Input(k)
    ensures var c := Quant(q, x, list, pred);
            Input(Spell(c, k)) && ParsePrimary(Spell(c, k)) == Ok(c, k)
    decreases Quant(q, x, list, pred), 0
  {
    var after := Spell(pred, Cons(RParen, k));
    ClosedParses(pred, RParen, k);
    BinderParses(x, list, Cons(KwWhere, after));
    var b := Cons(Ident(x), Cons(KwIn, Spell(list, Cons(KwWhere, after))));
    QuantUnfold(q, x, list, pred, b, after, k);
    QuantDispatch(q, Cons(LParen, b));
    assert Spell(Quant(q, x, list, pred), k) == Cons(QuantTok(q), Cons(LParen, b));
  }

  lemma QuantUnfold(q: QuantifierKind, x: string, list: Syn, pred: Syn, b: Tokens, after: Tokens, k: Tokens)
    requires Input(b) && ParseBinder(b) == OkHead(x, list, None, Cons(KwWhere, after))
    requires Input(after) && ParseClosed(after, RParen) == Ok(pred, k)
    ensures var ts := Cons(QuantTok(q), Cons(LParen, b));
            Input(ts) && ParseQuantifier(ts) == Ok(Quant(q, x, list, pred), k)
  {
    assert Expect(Cons(LParen, b), LParen) == Success(b);
    assert Expect(Cons(KwWhere, after), KwWhere) == Success(after);
    assert ParseQuantHead(Cons(LParen, b)) == OkHead(x, list, None, Cons(KwWhere, after));
    assert ParseLast(Cons(KwWhere, after), KwWhere, RParen) == Ok(pred, k);
    assert QuantOf(QuantTok(q)) == q;
  }
}
