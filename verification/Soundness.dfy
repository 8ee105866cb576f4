// The soundness half of the parser's correctness, for expressions: a tree that is returned is
// admitted by the grammar and spells exactly the tokens consumed. (For literals and patterns the
// grammar functions promise this themselves.)
module Soundness {
  import opened Token
  import opened Ast
  import opened Syntax
  import opened Grammar

  // `g` holds a tree of at least the given level that spells `ts` up to where `g` leaves off.
  ghost predicate Spells(g: Res, level: nat, ts: Tokens) {
    g.Ok? ==> Wf(g.tree) && Level(g.tree) >= level && ts == Spell(g.tree, g.rest)
  }

  lemma {:induction false} OrSound(ts: Tokens)
    requires Input(ts)
    ensures Spells(ParseOr(ts), 0, ts)
    decreases Length(ts), 9
  {
    AndSound(ts);
    match ParseAnd(ts)
    case Bad(_) =>
    case Ok(lhs, rest) => OrTailSound(lhs, rest);
  }

  lemma {:induction false} OrTailSound(lhs: Syn, ts: Tokens)
    requires Input(ts) && Wf(lhs)
    ensures Spells(OrTail(lhs, ts), 0, Spell(lhs, ts))
    decreases Length(ts), 8
  {
    if ts.head == KwOr {
      AndSound(Next(ts));
      match ParseAnd(Next(ts))
      case Bad(_) =>
      case Ok(rhs, rest) =>
        assert Spell(Bin(OpOr, lhs, rhs), rest) == Spell(lhs, ts);
        OrTailSound(Bin(OpOr, lhs, rhs), rest);
    }
  }

  lemma {:induction false} AndSound(ts: Tokens)
    requires Input(ts)
    ensures Spells(ParseAnd(ts), 1, ts)
    decreases Length(ts), 7
  {
    NotSound(ts);
    match ParseNot(ts)
    case Bad(_) =>
    case Ok(lhs, rest) => AndTailSound(lhs, rest);
  }

  lemma {:induction false} AndTailSound(lhs: Syn, ts: Tokens)
    requires Input(ts) && Wf(lhs) && Level(lhs) >= 1
    ensures Spells(AndTail(lhs, ts), 1, Spell(lhs, ts))
    decreases Length(ts), 6
  {
    if ts.head == KwAnd {
      NotSound(Next(ts));
      match ParseNot(Next(ts))
      case Bad(_) =>
      case Ok(rhs, rest) => AndTailSound(Bin(OpAnd, lhs, rhs), rest);
    }
  }

  // A bare pattern is only ever read where the lookahead announced one.
  lemma {:induction false} NotSound(ts: Tokens)
    requires Input(ts)
    ensures Spells(ParseNot(ts), 2, ts)
    ensures ParseNot(ts).Ok? && BarePattern(ParseNot(ts).tree) ==> StartsPattern(ts)
    decreases Length(ts), 5
  {
    if ts.head == KwNot {
      NegatedSound(Next(ts));
    } else if StartsPattern(ts) {
      PatternPredicateSound(false, ts);
    } else {
      ComparisonSound(ts);
    }
  }

  lemma {:induction false} PatternPredicateSound(negated: bool, ts: Tokens)
    requires Input(ts) && ts.head == LParen
    ensures Spells(ParsePatternPredicate(negated, ts), 2, if negated then Cons(KwNot, ts) else ts)
    ensures ParsePatternPredicate(negated, ts).Ok? ==>
              ParsePatternPredicate(negated, ts).tree.Pat? && ParsePatternPredicate(negated, ts).tree.negated == negated
  {
    if ParsePatternPredicate(negated, ts).Ok? {
      var (p, rest) := ParsePathPattern(ts).value;
      assert ParsePatternPredicate(negated, ts) == Ok(Pat(negated, p), rest);
      assert ts == SpellPath(p, rest);
      assert p.pathVar.None?;
    }
  }

  lemma {:induction false} NegatedSound(ts: Tokens)
    requires Input(ts)
    ensures Spells(ParseNegated(ts), 2, Cons(KwNot, ts))
    ensures ParseNegated(ts).Ok? ==> !BarePattern(ParseNegated(ts).tree)
    decreases Length(ts), 6
  {
    if StartsPattern(ts) {
      PatternPredicateSound(true, ts);
    } else {
      NotSound(ts);
    }
  }

  lemma {:induction false} ComparisonSound(ts: Tokens)
    requires Input(ts)
    ensures Spells(ParseComparison(ts), 3, ts)
    decreases Length(ts), 4
  {
    PrimarySound(ts);
    match ParsePrimary(ts)
    case Bad(_) =>
    case Ok(lhs, rest) =>
      if ComparisonOp(rest.head).Some? {
        PrimarySound(Next(rest));
        assert rest == Cons(OpTok(ComparisonOp(rest.head).value), Next(rest));
      }
  }

  lemma {:induction false} PrimarySound(ts: Tokens)
    requires Input(ts)
    ensures Spells(ParsePrimary(ts), 4, ts)
    decreases Length(ts), 3
  {
    if ts.head == LParen {
      ClosedSound(Next(ts), RParen);
    } else if ts.head == LBracket {
      BracketSound(ts);
    } else if ts.head == KwNone || ts.head == KwAny || ts.head == KwAll {
      QuantifierSound(ts);
    } else if ts.head.Ident? && Next(ts).head == LParen {
      FunctionCallSound(ts);
    }
  }

  lemma {:induction false} BracketSound(ts: Tokens)
    requires Input(ts)
    ensures Spells(ParseBracket(ts), 4, ts)
    decreases Length(ts), 2
  {
    if BracketIsComprehension(ts) {
      ListCompSound(ts);
    }
  }

  lemma {:induction false} FunctionCallSound(ts: Tokens)
    requires Input(ts) && ts.head.Ident?
    ensures Spells(ParseFunctionCall(ts), 4, ts)
    decreases Length(ts), 1
  {
    if Next(ts).head == LParen && Next(Next(ts)).head != Star {
      OptArgsSound(Next(Next(ts)));
    }
  }

  ghost predicate SpellsArgs(g: ArgsRes, ts: Tokens) {
    g.OkArgs? ==>
      && (forall i | 0 <= i < |g.trees| :: Wf(g.trees[i]))
      && ts == SpellArgs(g.trees, g.rest)
  }

  lemma {:induction false} OptArgsSound(ts: Tokens)
    requires Input(ts)
    ensures SpellsArgs(ParseOptArgs(ts), ts)
    decreases Length(ts), 13
  {
    if ts.head != RParen {
      ArgsSound(ts);
    }
  }

  lemma {:induction false} ArgsSound(ts: Tokens)
    requires Input(ts)
    ensures SpellsArgs(ParseArgs(ts), ts)
    decreases Length(ts), 12
  {
    OrSound(ts);
    match ParseOr(ts)
    case Bad(_) =>
    case Ok(a, rest) =>
      if rest.head == Comma {
        ArgsSound(Next(rest));
      }
      match ArgsTail(rest)
      case BadArgs(_) =>
      case OkArgs(more, rest') => assert ([a] + more)[1..] == more;
  }

  lemma {:induction false} ClosedSound(ts: Tokens, close: TokenKind)
    requires Input(ts) && close != Eof
    ensures var g := ParseClosed(ts, close);
            g.Ok? ==> Wf(g.tree) && ts == Spell(g.tree, Cons(close, g.rest))
    decreases Length(ts), 10
  {
    OrSound(ts);
  }

  lemma {:induction false} LastSound(ts: Tokens, sep: TokenKind, close: TokenKind)
    requires Input(ts) && sep != Eof && close != Eof
    ensures var g := ParseLast(ts, sep, close);
            g.Ok? ==> Wf(g.tree) && ts == Cons(sep, Spell(g.tree, Cons(close, g.rest)))
    decreases Length(ts), 11
  {
    if ts.head == sep {
      ClosedSound(Next(ts), close);
    }
  }

  // The head of a comprehension or quantifier is spelled by what it binds.
  ghost predicate SpellsHead(g: HeadRes, ts: Tokens) {
    g.OkHead? ==>
      && Wf(g.list) && (g.filter.Some? ==> Wf(g.filter.value))
      && ts == Cons(Ident(g.bound), Cons(KwIn, Spell(g.list, SpellFilter(g.filter, g.rest))))
  }

  lemma {:induction false} BinderSound(ts: Tokens)
    requires Input(ts)
    ensures SpellsHead(ParseBinder(ts), ts)
    ensures ParseBinder(ts).OkHead? ==> ParseBinder(ts).filter.None?
    decreases Length(ts), 10
  {
    if ts.head.Ident? && Next(ts).head == KwIn {
      OrSound(Next(Next(ts)));
    }
  }

  lemma {:induction false} CompHeadSound(ts: Tokens)
    requires Input(ts)
    ensures SpellsHead(ParseCompHead(ts), ts)
    decreases Length(ts), 11
  {
    BinderSound(ts);
    match ParseBinder(ts)
    case BadHead(_) =>
    case OkHead(x, list, _, rest) =>
      if rest.head == KwWhere {
        OrSound(Next(rest));
      }
  }

  lemma {:induction false} ListCompSound(ts: Tokens)
    requires Input(ts)
    ensures Spells(ParseListComp(ts), 4, ts)
    decreases Length(ts), 1
  {
    if ts.head == LBracket {
      CompHeadSound(Next(ts));
      match ParseCompHead(Next(ts))
      case BadHead(_) =>
      case OkHead(x, list, filter, rest) =>
        LastSound(rest, Pipe, RBracket);
        match ParseLast(rest, Pipe, RBracket)
        case Bad(_) =>
        case Ok(projection, k) =>
          var c := Comp(x, list, filter, projection);
          assert ParseListComp(ts) == Ok(c, k);
          assert Spell(c, k) == Cons(LBracket, Next(ts));
    }
  }

  lemma {:induction false} QuantifierSound(ts: Tokens)
    requires Input(ts) && (ts.head == KwNone || ts.head == KwAny || ts.head == KwAll)
    ensures Spells(ParseQuantifier(ts), 4, ts)
    decreases Length(ts), 1
  {
    var after := Next(ts);
    if after.head == LParen {
      BinderSound(Next(after));
      match ParseBinder(Next(after))
      case BadHead(_) =>
      case OkHead(x, list, _, rest) =>
        LastSound(rest, KwWhere, RParen);
        match ParseLast(rest, KwWhere, RParen)
        case Bad(_) =>
        case Ok(pred, k) =>
          var c := Quant(QuantOf(ts.head), x, list, pred);
          assert ParseQuantifier(ts) == Ok(c, k);
          assert Spell(c, k) == Cons(QuantTok(c.kind), after);
    }
  }
}
