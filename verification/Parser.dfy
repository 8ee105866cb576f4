// The parser itself (crates/cgx-cql/src/parser.rs): a cursor over a token vector, advanced by
// methods whose loops push onto vectors and rebuild the left operand. Every method is proved to
// return what the grammar function of the same name computes and to leave the cursor where that
// function leaves off. All of them terminate with the cursor in bounds.
module Parser {
  import opened Prelude
  import opened Token
  import V = Values
  import opened Ast
  import opened Syntax
  import G = Grammar

  type Outcome<+T> = Result<T, ErrorKind>

  // The tokens from `pos` on.
  function From(tokens: seq<TokenKind>, pos: nat): Tokens
    requires pos <= |tokens|
    decreases |tokens| - pos
  {
    if pos == |tokens| then Nil else Cons(tokens[pos], From(tokens, pos + 1))
  }

  lemma {:induction false} FromIsInput(tokens: seq<TokenKind>, pos: nat)
    requires pos < |tokens| && tokens[|tokens| - 1] == Eof
    ensures G.Input(From(tokens, pos)) && Length(From(tokens, pos)) == |tokens| - pos
    decreases |tokens| - pos
  {
    if pos + 1 < |tokens| {
      FromIsInput(tokens, pos + 1);
    }
  }

  // How the outcome of a method relates to the result of the grammar function it implements.
  ghost predicate Plain<T(!new)>(g: G.Parsed<T>, r: Outcome<T>, rest: Tokens) {
    match g
    case Failure(k) => r == Failure(k)
    case Success((v, k)) => r == Success(v) && rest == k
  }

  ghost predicate NodeAgrees(g: G.Parsed<NodeSyn>, r: Outcome<NodePat>, rest: Tokens) {
    match g
    case Failure(k) => r == Failure(k)
    case Success((n, k)) => r == Success(AbsNode(n)) && rest == k
  }

  ghost predicate BodyAgrees(g: G.Parsed<Option<RelBody>>, direction: Arrow, r: Outcome<RelPat>, rest: Tokens) {
    match g
    case Failure(k) => r == Failure(k)
    case Success((b, k)) => r == Success(AbsRel(RelSyn(direction, b))) && rest == k
  }

  ghost predicate RelAgrees(g: G.Parsed<RelSyn>, r: Outcome<RelPat>, rest: Tokens) {
    match g
    case Failure(k) => r == Failure(k)
    case Success((n, k)) => r == Success(AbsRel(n)) && rest == k
  }

  ghost predicate StepAgrees(g: G.Parsed<StepSyn>, r: Outcome<Step>, rest: Tokens) {
    match g
    case Failure(k) => r == Failure(k)
    case Success((s, k)) => r == Success(AbsStep(s)) && rest == k
  }

  ghost predicate StepsAgree(g: G.Parsed<seq<StepSyn>>, r: Outcome<seq<Step>>, rest: Tokens) {
    match g
    case Failure(k) => r == Failure(k)
    case Success((ss, k)) => r == Success(AbsSteps(ss)) && rest == k
  }

  ghost predicate PathAgrees(g: G.Parsed<PathSyn>, r: Outcome<PathPattern>, rest: Tokens) {
    match g
    case Failure(k) => r == Failure(k)
    case Success((p, k)) => r == Success(AbsPath(p)) && rest == k
  }

  ghost predicate Agrees(g: G.Res, r: Outcome<Expr>, rest: Tokens) {
    match g
    case Bad(k) => r == Failure(k)
    case Ok(c, k) => r == Success(Abs(c)) && rest == k
  }

  ghost predicate ArgsAgree(g: G.ArgsRes, r: Outcome<seq<Expr>>, rest: Tokens) {
    match g
    case BadArgs(k) => r == Failure(k)
    case OkArgs(cs, k) => r == Success(AbsArgs(cs)) && rest == k
  }

  datatype Head = Head(bound: string, list: Expr, filter: Option<Expr>)

  ghost predicate HeadAgrees(g: G.HeadRes, r: Outcome<Head>, rest: Tokens) {
    match g
    case BadHead(k) => r == Failure(k)
    case OkHead(x, list, filter, k) => r == Success(Head(x, Abs(list), AbsFilter(filter))) && rest == k
  }

  function AsPredicate(negated: bool, r: Outcome<Option<PathPattern>>): Outcome<Expr> {
    match r
    case Failure(k) => Failure(k)
    case Success(None) => Failure(Parse)
    case Success(Some(p)) => Success(PatternPredicate(negated, p))
  }

  class Parser {
    const tokens: seq<TokenKind>
    var pos: nat

    constructor (tokens: seq<TokenKind>)
      requires tokens != [] && tokens[|tokens| - 1] == Eof
      ensures Valid() && this.tokens == tokens && pos == 0
    {
      this.tokens := tokens;
      this.pos := 0;
    }

    ghost predicate Valid()
      reads this
    {
      pos < |tokens| && tokens[|tokens| - 1] == Eof
    }

    ghost function Rest(): (ts: Tokens)
      requires Valid()
      reads this
      ensures G.Input(ts) && Length(ts) == |tokens| - pos && ts.head == tokens[pos]
      ensures pos + 1 < |tokens| ==> ts.tail.Cons? && ts.tail.head == tokens[pos + 1]
    {
      FromIsInput(tokens, pos);
      From(tokens, pos)
    }

    // ---- token cursor ----

    method Bump() returns (t: TokenKind)
      requires Valid()
      modifies this`pos
      ensures Valid() && t == old(tokens[pos])
      ensures t == Eof ==> pos == old(pos)
      ensures t != Eof ==> pos == old(pos) + 1 && Rest() == old(Rest()).tail
    {
      t := tokens[pos];
      if t != Eof {
        pos := pos + 1;
      }
    }

    method Eat(kind: TokenKind) returns (ok: bool)
      requires Valid() && kind != Eof
      modifies this`pos
      ensures Valid() && (ok <==> old(tokens[pos]) == kind)
      ensures ok ==> pos == old(pos) + 1 && Rest() == old(Rest()).tail
      ensures !ok ==> pos == old(pos)
    {
      ok := tokens[pos] == kind;
      if ok {
        pos := pos + 1;
      }
    }

    method Expect(kind: TokenKind) returns (r: Outcome<TokenKind>)
      requires Valid() && kind != Eof
      modifies this`pos
      ensures Valid()
      ensures old(tokens[pos]) == kind ==>
                r == Success(kind) && pos == old(pos) + 1 && Rest() == old(Rest()).tail
      ensures old(tokens[pos]) != kind ==> r == Failure(Parse) && pos == old(pos)
    {
      if tokens[pos] == kind {
        var t := Bump();
        r := Success(t);
      } else {
        r := Failure(Parse);
      }
    }

    method ExpectIdent() returns (r: Outcome<string>)
      requires Valid()
      modifies this`pos
      ensures Valid() && Plain(G.ParseIdent(old(Rest())), r, Rest())
      ensures r.Success? ==> pos == old(pos) + 1
    {
      match tokens[pos]
      case Ident(name) =>
        var _ := Bump();
        r := Success(name);
      case _ =>
        r := Failure(Parse);
    }

    method ParseOptIdent() returns (r: Option<string>)
      requires Valid()
      modifies this`pos
      ensures Valid() && (r, Rest()) == G.ParseOptIdent(old(Rest())) && pos >= old(pos)
    {
      match tokens[pos]
      case Ident(name) =>
        var _ := Bump();
        r := Some(name);
      case _ =>
        r := None;
    }

    // ---- literals ----

    method ParseLiteral() returns (r: Outcome<Value>)
      requires Valid()
      modifies this`pos
      ensures Valid() && Plain(G.ParseLiteral(old(Rest())), r, Rest())
      ensures r.Success? ==> pos > old(pos)
      decreases |tokens| - pos, 1
    {
      if tokens[pos] == LBracket {
        r := ParseListLiteral();
      } else {
        r := ParseScalarLiteral();
      }
    }

    method ParseScalarLiteral() returns (r: Outcome<Value>)
      requires Valid() && tokens[pos] != LBracket
      modifies this`pos
      ensures Valid() && Plain(G.ParseLiteral(old(Rest())), r, Rest())
      ensures r.Success? ==> pos > old(pos)
    {
      match tokens[pos]
      case Str(s) =>
        var _ := Bump();
        r := Success(V.Value.Str(s));
      case Int(n) =>
        var _ := Bump();
        r := Success(V.Value.Int(n));
      case Float(f) =>
        var _ := Bump();
        r := Success(V.Value.Float(f));
      case KwTrue =>
        var _ := Bump();
        r := Success(V.Bool(true));
      case KwFalse =>
        var _ := Bump();
        r := Success(V.Bool(false));
      case KwNull =>
        var _ := Bump();
        r := Success(V.Null);
      case _ =>
        r := Failure(Parse);
    }

    method ParseListLiteral() returns (r: Outcome<Value>)
      requires Valid()
      modifies this`pos
      ensures Valid() && Plain(G.ParseListLiteral(old(Rest())), r, Rest())
      ensures r.Success? ==> pos > old(pos)
      decreases |tokens| - pos, 0
    {
      var _ :- Expect(LBracket);
      var items := [];
      if tokens[pos] != RBracket {
        items :- ParseLiterals();
      }
      var _ :- Expect(RBracket);
      r := Success(V.List(items));
    }

    // The items of a list literal that is not empty.
    method ParseLiterals() returns (r: Outcome<seq<Value>>)
      requires Valid()
      modifies this`pos
      ensures Valid() && Plain(G.ParseLiterals(old(Rest())), r, Rest())
      ensures r.Success? ==> pos > old(pos)
      decreases |tokens| - pos, 2
    {
      ghost var start := Rest();
      LiteralsStep([], start);
      var v :- ParseLiteral();
      var items := [v];
      while tokens[pos] == Comma
        invariant Valid() && pos > old(pos)
        invariant G.ParseLiterals(start) == Prepend(items, G.LiteralsTail(Rest()))
        decreases |tokens| - pos
      {
        var _ := Bump();
        LiteralsStep(items, Rest());
        v :- ParseLiteral();
        items := items + [v];
      }
      PrependToNothing(items, Rest());
      r := Success(items);
    }

    // ---- patterns ----

    method ParsePropMap() returns (r: Outcome<seq<PropEntry>>)
      requires Valid()
      modifies this`pos
      ensures Valid() && Plain(G.ParsePropMap(old(Rest())), r, Rest())
      ensures r.Success? ==> pos > old(pos)
    {
      var _ :- Expect(LBrace);
      var entries := [];
      if tokens[pos] != RBrace {
        entries :- ParseEntries();
      }
      var _ :- Expect(RBrace);
      r := Success(entries);
    }

    method ParseEntry() returns (r: Outcome<PropEntry>)
      requires Valid()
      modifies this`pos
      ensures Valid() && Plain(G.ParseEntry(old(Rest())), r, Rest())
      ensures r.Success? ==> pos > old(pos)
    {
      var key :- ExpectIdent();
      var _ :- Expect(Colon);
      var value :- ParseLiteral();
      r := Success(PropEntry(key, value));
    }

    // The entries of a property map that is not empty.
    method ParseEntries() returns (r: Outcome<seq<PropEntry>>)
      requires Valid()
      modifies this`pos
      ensures Valid() && Plain(G.ParseEntries(old(Rest())), r, Rest())
      ensures r.Success? ==> pos > old(pos)
    {
      ghost var start := Rest();
      EntriesStep([], start);
      var e :- ParseEntry();
      var entries := [e];
      while tokens[pos] == Comma
        invariant Valid() && pos > old(pos)
        invariant G.ParseEntries(start) == Prepend(entries, G.EntriesTail(Rest()))
        decreases |tokens| - pos
      {
        var _ := Bump();
        EntriesStep(entries, Rest());
        e :- ParseEntry();
        entries := entries + [e];
      }
      PrependToNothing(entries, Rest());
      r := Success(entries);
    }

    method ParseOptProps() returns (r: Outcome<seq<PropEntry>>)
      requires Valid()
      modifies this`pos
      ensures Valid() && (r.Success? ==> pos >= old(pos))
      ensures match G.ParseOptProps(old(Rest()))
              case Failure(k) => r == Failure(k)
              case Success((ps, k)) => r == Success(AbsProps(ps)) && Rest() == k
    {
      if tokens[pos] == LBrace {
        r := ParsePropMap();
      } else {
        r := Success([]);
      }
    }

    method ParseOptTag() returns (r: Outcome<Option<string>>)
      requires Valid()
      modifies this`pos
      ensures Valid() && Plain(G.ParseOptTag(old(Rest())), r, Rest())
      ensures r.Success? ==> pos >= old(pos)
    {
      var colon := Eat(Colon);
      if colon {
        var name :- ExpectIdent();
        r := Success(Some(name));
      } else {
        r := Success(None);
      }
    }

    method ParseNodePat() returns (r: Outcome<NodePat>)
      requires Valid()
      modifies this`pos
      ensures Valid() && NodeAgrees(G.ParseNodePat(old(Rest())), r, Rest())
      ensures r.Success? ==> pos > old(pos)
    {
      var _ :- Expect(LParen);
      var v := ParseOptIdent();
      var tag :- ParseOptTag();
      var props :- ParseOptProps();
      var _ :- Expect(RParen);
      r := Success(NodePat(v, tag, props));
    }

    method ParseRelTypes() returns (r: Outcome<seq<string>>)
      requires Valid()
      modifies this`pos
      ensures Valid() && Plain(G.ParseRelTypes(old(Rest())), r, Rest())
      ensures r.Success? ==> pos > old(pos)
    {
      var name :- ExpectIdent();
      if tokens[pos] == Colon {
        return Failure(Plan);
      }
      ghost var start := Rest();
      var types := [name];
      ghost var extra: seq<string> := [];
      PrependNothing(G.ParseMoreTypes(start));
      while tokens[pos] == Pipe
        invariant Valid() && pos >= old(pos) && types == [name] + extra
        invariant G.ParseMoreTypes(start) == Prepend(extra, G.ParseMoreTypes(Rest()))
        decreases |tokens| - pos
      {
        MoreTypesStep(extra, Rest());
        var _ := Bump();
        var t :- ExpectIdent();
        types := types + [t];
        extra := extra + [t];
      }
      PrependToNothing(extra, Rest());
      r := Success(types);
    }

    method ParseOptIntU32() returns (r: Outcome<Option<nat>>)
      requires Valid()
      modifies this`pos
      ensures Valid() && Plain(G.ParseOptBound(old(Rest())), r, Rest())
      ensures r.Success? ==> pos >= old(pos)
    {
      match tokens[pos]
      case Int(n) =>
        var _ := Bump();
        r := if 0 <= n < U32_LIMIT then Success(Some(n)) else Failure(Parse);
      case _ =>
        r := Success(None);
    }

    method ParseVarLen() returns (r: Outcome<VarLen>)
      requires Valid()
      modifies this`pos
      ensures Valid() && (r.Success? ==> pos >= old(pos))
      ensures match G.ParseVarLen(old(Rest()))
              case Failure(k) => r == Failure(k)
              case Success((l, k)) => r == Success(AbsVarLen(l)) && Rest() == k
    {
      var _ :- Expect(Star);
      var min :- ParseOptIntU32();
      var dots := Eat(DotDot);
      var max := min;
      if dots {
        max :- ParseOptIntU32();
      }
      r := Success(VarLen(min, max));
    }

    method ParseOptTypes() returns (r: Outcome<seq<string>>)
      requires Valid()
      modifies this`pos
      ensures Valid() && Plain(G.ParseOptTypes(old(Rest())), r, Rest())
      ensures r.Success? ==> pos >= old(pos)
    {
      var colon := Eat(Colon);
      if colon {
        r := ParseRelTypes();
      } else {
        r := Success([]);
      }
    }

    method ParseOptVarLen() returns (r: Outcome<Option<VarLen>>)
      requires Valid()
      modifies this`pos
      ensures Valid() && (r.Success? ==> pos >= old(pos))
      ensures match G.ParseOptVarLen(old(Rest()))
              case Failure(k) => r == Failure(k)
              case Success((l, k)) => r == Success(AbsOptVarLen(l)) && Rest() == k
    {
      if tokens[pos] == Star {
        var l :- ParseVarLen();
        r := Success(Some(l));
      } else {
        r := Success(None);
      }
    }

    // The end of a bracketed relationship: length bound, property map and `]`.
    method ParseRelTail() returns (r: Outcome<(Option<VarLen>, seq<PropEntry>)>)
      requires Valid()
      modifies this`pos
      ensures Valid() && (r.Success? ==> pos >= old(pos))
      ensures match G.ParseRelTail(old(Rest()))
              case Failure(k) => r == Failure(k)
              case Success(((l, ps), k)) => r == Success((AbsOptVarLen(l), AbsProps(ps))) && Rest() == k
    {
      var varLen :- ParseOptVarLen();
      var props :- ParseOptProps();
      var _ :- Expect(RBracket);
      r := Success((varLen, props));
    }

    // A bracketed relationship after its `[`.
    method ParseBodyInside(direction: Arrow) returns (r: Outcome<RelPat>)
      requires Valid()
      modifies this`pos
      ensures Valid() && (r.Success? ==> pos >= old(pos))
      ensures match G.ParseBodyInside(old(Rest()))
              case Failure(k) => r == Failure(k)
              case Success((b, k)) => r == Success(AbsBody(direction, b)) && Rest() == k
    {
      var v := ParseOptIdent();
      var types :- ParseOptTypes();
      var tail :- ParseRelTail();
      r := Success(RelPat(v, direction, types, tail.0, tail.1));
    }

    method ParseRelBody(direction: Arrow) returns (r: Outcome<RelPat>)
      requires Valid()
      modifies this`pos
      ensures Valid() && (r.Success? ==> pos >= old(pos))
      ensures BodyAgrees(G.ParseRelBody(old(Rest())), direction, r, Rest())
    {
      var bracket := Eat(LBracket);
      if bracket {
        r := ParseBodyInside(direction);
      } else {
        r := Success(RelPat(None, direction, [], None, []));
      }
    }

    method ParseRelPat() returns (r: Outcome<RelPat>)
      requires Valid()
      modifies this`pos
      ensures Valid() && RelAgrees(G.ParseRelPat(old(Rest())), r, Rest())
      ensures r.Success? ==> pos > old(pos)
    {
      if tokens[pos] != Dash && tokens[pos] != ArrowL {
        return Failure(Parse);
      }
      var first := Bump();
      var leadingBack := first == ArrowL;
      var direction := if leadingBack then Backward else Forward;
      var rel :- ParseRelBody(direction);
      if tokens[pos] != ArrowR && tokens[pos] != Dash {
        return Failure(Parse);
      }
      var last := Bump();
      var trailingForward := last == ArrowR;
      if leadingBack == trailingForward {
        return Failure(Parse);
      }
      r := Success(rel);
    }

    method ParseStep() returns (r: Outcome<Step>)
      requires Valid()
      modifies this`pos
      ensures Valid() && StepAgrees(G.ParseStep(old(Rest())), r, Rest())
      ensures r.Success? ==> pos > old(pos)
    {
      var rel :- ParseRelPat();
      var node :- ParseNodePat();
      r := Success(Step(rel, node));
    }

    method ParseSteps() returns (r: Outcome<seq<Step>>)
      requires Valid()
      modifies this`pos
      ensures Valid() && StepsAgree(G.ParseSteps(old(Rest())), r, Rest())
      ensures r.Success? ==> pos >= old(pos)
    {
      ghost var start := Rest();
      ghost var read: seq<StepSyn> := [];
      var steps := [];
      PrependNothing(G.ParseSteps(start));
      while tokens[pos] == Dash || tokens[pos] == ArrowL
        invariant Valid() && pos >= old(pos) && steps == AbsSteps(read)
        invariant G.ParseSteps(start) == Prepend(read, G.ParseSteps(Rest()))
        decreases |tokens| - pos
      {
        StepsStep(read, Rest());
        ghost var g := G.ParseStep(Rest());
        var s :- ParseStep();
        AbsStepsAppend(read, g.value.0);
        read := read + [g.value.0];
        steps := steps + [s];
      }
      PrependToNothing(read, Rest());
      r := Success(steps);
    }

    // The `path =` prefix needs a second token of lookahead.
    method ParsePathVar() returns (r: Option<string>)
      requires Valid()
      modifies this`pos
      ensures Valid() && (r, Rest()) == G.ParsePathVar(old(Rest())) && pos >= old(pos)
    {
      r := None;
      if tokens[pos].Ident? && pos + 1 < |tokens| && tokens[pos + 1] == TokenKind.Eq {
        r := Some(tokens[pos].name);
        var _ := Bump();
        var _ := Bump();
      }
    }

    method ParsePathPattern() returns (r: Outcome<PathPattern>)
      requires Valid()
      modifies this`pos
      ensures Valid() && PathAgrees(G.ParsePathPattern(old(Rest())), r, Rest())
      ensures r.Success? ==> pos > old(pos)
    {
      var pathVar := ParsePathVar();
      var start :- ParseNodePat();
      var steps :- ParseSteps();
      r := Success(PathPattern(pathVar, start, steps));
    }

    // ---- expressions ----

    method ParseExpr() returns (r: Outcome<Expr>)
      requires Valid()
      modifies this`pos
      ensures Valid() && Agrees(G.ParseOr(old(Rest())), r, Rest())
      ensures r.Success? ==> pos > old(pos)
      decreases |tokens| - pos, 9
    {
      r := ParseOr();
    }

    method ParseOr() returns (r: Outcome<Expr>)
      requires Valid()
      modifies this`pos
      ensures Valid() && Agrees(G.ParseOr(old(Rest())), r, Rest())
      ensures r.Success? ==> pos > old(pos)
      decreases |tokens| - pos, 8
    {
      ghost var start := Rest();
      ghost var syn := G.ParseAnd(start);
      var lhs :- ParseAnd();
      ghost var read := syn.tree;
      while tokens[pos] == KwOr
        invariant Valid() && pos > old(pos)
        invariant lhs == Abs(read) && G.ParseOr(start) == G.OrTail(read, Rest())
        decreases |tokens| - pos
      {
        var _ := Bump();
        syn := G.ParseAnd(Rest());
        var rhs :- ParseAnd();
        AbsOfBin(OpOr, read, syn.tree);
        lhs := Binary(OpOr, lhs, rhs);
        read := Bin(OpOr, read, syn.tree);
      }
      r := Success(lhs);
    }

    method ParseAnd() returns (r: Outcome<Expr>)
      requires Valid()
      modifies this`pos
      ensures Valid() && Agrees(G.ParseAnd(old(Rest())), r, Rest())
      ensures r.Success? ==> pos > old(pos)
      decreases |tokens| - pos, 7
    {
      ghost var start := Rest();
      ghost var syn := G.ParseNot(start);
      var lhs :- ParseNot();
      ghost var read := syn.tree;
      while tokens[pos] == KwAnd
        invariant Valid() && pos > old(pos)
        invariant lhs == Abs(read)
        invariant G.ParseAnd(start) == G.AndTail(read, Rest())
        decreases |tokens| - pos
      {
        var _ := Bump();
        syn := G.ParseNot(Rest());
        var rhs :- ParseNot();
        AbsOfBin(OpAnd, read, syn.tree);
        lhs := Binary(OpAnd, lhs, rhs);
        read := Bin(OpAnd, read, syn.tree);
      }
      r := Success(lhs);
    }

    // Tries a bare pattern at a `(`; answers None, consuming nothing, before any other expression.
    method TryPatternPredicate(ghost negated: bool) returns (r: Outcome<Option<PathPattern>>)
      requires Valid()
      modifies this`pos
      ensures Valid()
      ensures !G.StartsPattern(old(Rest())) ==> r == Success(None) && pos == old(pos)
      ensures G.StartsPattern(old(Rest())) ==>
                && (r.Success? ==> r.value.Some? && pos > old(pos))
                && Agrees(G.ParsePatternPredicate(negated, old(Rest())), AsPredicate(negated, r), Rest())
    {
      if tokens[pos] != LParen {
        return Success(None);
      }
      var isPattern := ParenGroupIsPattern();
      if !isPattern {
        return Success(None);
      }
      PatternSteps(negated, Rest());
      ghost var g := G.ParsePathPattern(Rest());
      var pat :- ParsePathPattern();
      AbsOfPattern(negated, g.value.0);
      if pat.steps == [] {
        return Failure(Parse);
      }
      r := Success(Some(pat));
    }

    // Looks ahead from the current `(` to its matching `)` for an arrow after it.
    method ParenGroupIsPattern() returns (b: bool)
      requires Valid() && tokens[pos] == LParen
      ensures b == G.StartsPattern(Rest())
    {
      var depth: nat := 0;
      var i := pos;
      while i < |tokens|
        invariant pos <= i <= |tokens|
        invariant G.StartsPattern(Rest()) == G.ClosesBeforeArrow(From(tokens, i), depth)
        invariant i > pos ==> depth > 0
      {
        match tokens[i] {
          case LParen => depth := depth + 1;
          case RParen =>
            if depth == 1 {
              return i + 1 < |tokens| && (tokens[i + 1] == Dash || tokens[i + 1] == ArrowL);
            }
            depth := depth - 1;
          case Eof => return false;
          case _ =>
        }
        i := i + 1;
      }
      b := false;
    }

    method ParseNot() returns (r: Outcome<Expr>)
      requires Valid()
      modifies this`pos
      ensures Valid() && Agrees(G.ParseNot(old(Rest())), r, Rest())
      ensures r.Success? ==> pos > old(pos)
      decreases |tokens| - pos, 6
    {
      if tokens[pos] == KwNot {
        var _ := Bump();
        r := ParseNegated();
        return;
      }
      ghost var ts := Rest();
      var t := TryPatternPredicate(false);
      assert G.StartsPattern(ts) ==> Agrees(G.ParsePatternPredicate(false, ts), AsPredicate(false, t), Rest());
      if t.Failure? {
        return Failure(t.error);
      }
      if t.value.Some? {
        return Success(PatternPredicate(false, t.value.value));
      }
      r := ParseComparison();
    }

    // After NOT.
    method ParseNegated() returns (r: Outcome<Expr>)
      requires Valid()
      modifies this`pos
      ensures Valid() && Agrees(G.ParseNegated(old(Rest())), r, Rest())
      ensures r.Success? ==> pos > old(pos)
      decreases |tokens| - pos, 7
    {
      ghost var ts := Rest();
      var t := TryPatternPredicate(true);
      assert G.StartsPattern(ts) ==> Agrees(G.ParsePatternPredicate(true, ts), AsPredicate(true, t), Rest());
      if t.Failure? {
        return Failure(t.error);
      }
      if t.value.Some? {
        return Success(PatternPredicate(true, t.value.value));
      }
      var inner :- ParseNot();
      r := Success(Not(inner));
    }

    method ParseComparison() returns (r: Outcome<Expr>)
      requires Valid()
      modifies this`pos
      ensures Valid() && Agrees(G.ParseComparison(old(Rest())), r, Rest())
      ensures r.Success? ==> pos > old(pos)
      decreases |tokens| - pos, 5
    {
      ghost var left := G.ParsePrimary(Rest());
      var lhs :- ParsePrimary();
      r := ParseComparisonTail(lhs, left.tree);
    }

    // What may follow the first operand.
    method ParseComparisonTail(lhs: Expr, ghost left: Syn) returns (r: Outcome<Expr>)
      requires Valid() && lhs == Abs(left)
      modifies this`pos
      ensures Valid() && Agrees(G.ComparisonTail(left, old(Rest())), r, Rest())
      ensures r.Success? ==> pos >= old(pos)
      decreases |tokens| - pos, 5
    {
      if tokens[pos].Ident? && G.IsIs(tokens[pos].name) {
        return Failure(Plan);
      }
      var op := G.ComparisonOp(tokens[pos]);
      if op.None? {
        return Success(lhs);
      }
      var _ := Bump();
      ghost var right := G.ParsePrimary(Rest());
      var rhs :- ParsePrimary();
      AbsOfBin(op.value, left, right.tree);
      r := Success(Binary(op.value, lhs, rhs));
    }

    method ParsePrimary() returns (r: Outcome<Expr>)
      requires Valid()
      modifies this`pos
      ensures Valid() && Agrees(G.ParsePrimary(old(Rest())), r, Rest())
      ensures r.Success? ==> pos > old(pos)
      decreases |tokens| - pos, 4
    {
      if tokens[pos] == LParen {
        r := ParseGroup();
      } else if tokens[pos] == LBracket {
        r := ParseBracket();
      } else if tokens[pos] == KwNone || tokens[pos] == KwAny || tokens[pos] == KwAll {
        r := ParseQuantifier();
      } else if !tokens[pos].Ident? {
        r := ParseScalar();
      } else if tokens[pos + 1] == LParen {
        r := ParseFunctionCall();
      } else {
        r := ParseProperty();
      }
    }

    method ParseGroup() returns (r: Outcome<Expr>)
      requires Valid() && tokens[pos] == LParen
      modifies this`pos
      ensures Valid() && Agrees(G.ParseGroup(old(Rest())), r, Rest())
      ensures r.Success? ==> pos > old(pos)
      decreases |tokens| - pos, 3
    {
      var _ := Bump();
      r := ParseClosed(RParen);
    }

    method ParseScalar() returns (r: Outcome<Expr>)
      requires Valid()
      modifies this`pos
      ensures Valid() && Agrees(G.ParseScalar(old(Rest())), r, Rest())
      ensures r.Success? ==> pos > old(pos)
    {
      var v :- ParseLiteral();
      r := Success(Literal(v));
    }

    method ParseBracket() returns (r: Outcome<Expr>)
      requires Valid() && tokens[pos] == LBracket
      modifies this`pos
      ensures Valid() && Agrees(G.ParseBracket(old(Rest())), r, Rest())
      ensures r.Success? ==> pos > old(pos)
      decreases |tokens| - pos, 3
    {
      var isComprehension := BracketIsComprehension();
      if isComprehension {
        r := ParseListComp();
      } else {
        var v :- ParseListLiteral();
        r := Success(Literal(v));
      }
    }

    // A `[` opens a comprehension iff an identifier and IN follow.
    method BracketIsComprehension() returns (b: bool)
      requires Valid() && tokens[pos] == LBracket
      ensures b == G.BracketIsComprehension(Rest())
    {
      b := pos + 2 < |tokens| && tokens[pos + 1].Ident? && tokens[pos + 2] == KwIn;
      assert pos + 1 < |tokens| ==> Rest().tail == From(tokens, pos + 1);
      assert pos + 2 < |tokens| ==> Rest().tail.tail == From(tokens, pos + 2);
    }

    method ParseProperty() returns (r: Outcome<Expr>)
      requires Valid() && tokens[pos].Ident?
      modifies this`pos
      ensures Valid() && Agrees(G.ParseProperty(old(Rest())), r, Rest())
      ensures r.Success? ==> pos > old(pos)
    {
      var head := tokens[pos].name;
      var _ := Bump();
      ghost var start := Rest();
      var segments := [];
      PrependNothing(G.ParseSegments(start));
      while tokens[pos] == Dot
        invariant Valid() && pos > old(pos)
        invariant G.ParseSegments(start) == Prepend(segments, G.ParseSegments(Rest()))
        decreases |tokens| - pos
      {
        SegmentsStep(segments, Rest());
        var _ := Bump();
        var s :- ExpectIdent();
        segments := segments + [s];
      }
      PrependToNothing(segments, Rest());
      r := Success(Property(head, segments));
    }

    method ParseFunctionCall() returns (r: Outcome<Expr>)
      requires Valid() && tokens[pos].Ident?
      modifies this`pos
      ensures Valid() && Agrees(G.ParseFunctionCall(old(Rest())), r, Rest())
      ensures r.Success? ==> pos > old(pos)
      decreases |tokens| - pos, 3
    {
      var name := tokens[pos].name;
      var _ := Bump();
      var _ :- Expect(LParen);
      if tokens[pos] == Star {
        r := ParseStarArg(name);
        return;
      }
      CallSteps(old(Rest()));
      ghost var read := G.ParseOptArgs(Rest());
      var args :- ParseOptArgs();
      var _ :- Expect(RParen);
      AbsOfCall(name, read.trees);
      r := Success(FunctionCall(name, args));
    }

    // `f(*)`, from the star on.
    method ParseStarArg(name: string) returns (r: Outcome<Expr>)
      requires Valid() && tokens[pos] == Star
      modifies this`pos
      ensures Valid() && Agrees(G.ParseStarArg(name, old(Rest())), r, Rest())
      ensures r.Success? ==> pos > old(pos)
    {
      var _ := Bump();
      var _ :- Expect(RParen);
      r := Success(FunctionCall(name, [Property("*", [])]));
    }

    method ParseOptArgs() returns (r: Outcome<seq<Expr>>)
      requires Valid()
      modifies this`pos
      ensures Valid() && ArgsAgree(G.ParseOptArgs(old(Rest())), r, Rest())
      ensures r.Success? ==> pos >= old(pos)
      decreases |tokens| - pos, 11
    {
      if tokens[pos] == RParen {
        r := Success([]);
      } else {
        r := ParseArgs();
      }
    }

    // The arguments of a call that has some.
    method ParseArgs() returns (r: Outcome<seq<Expr>>)
      requires Valid()
      modifies this`pos
      ensures Valid() && ArgsAgree(G.ParseArgs(old(Rest())), r, Rest())
      ensures r.Success? ==> pos > old(pos)
      decreases |tokens| - pos, 10
    {
      ghost var start := Rest();
      ArgsStep([], start);
      ghost var g := G.ParseOr(start);
      var a :- ParseExpr();
      var args := [a];
      ghost var read := [g.tree];
      while tokens[pos] == Comma
        invariant Valid() && pos > old(pos) && args == AbsArgs(read)
        invariant G.ParseArgs(start) == G.PrependArgs(read, G.ArgsTail(Rest()))
        decreases |tokens| - pos
      {
        var _ := Bump();
        ArgsStep(read, Rest());
        g := G.ParseOr(Rest());
        a :- ParseExpr();
        AbsArgsAppend(read, g.tree);
        args := args + [a];
        read := read + [g.tree];
      }
      assert read + [] == read;
      r := Success(args);
    }

    method ParseClosed(close: TokenKind) returns (r: Outcome<Expr>)
      requires Valid() && close != Eof
      modifies this`pos
      ensures Valid() && Agrees(G.ParseClosed(old(Rest()), close), r, Rest())
      ensures r.Success? ==> pos > old(pos)
      decreases |tokens| - pos, 10
    {
      var e :- ParseExpr();
      var _ :- Expect(close);
      r := Success(e);
    }

    method ParseBinder() returns (r: Outcome<Head>)
      requires Valid()
      modifies this`pos
      ensures Valid() && HeadAgrees(G.ParseBinder(old(Rest())), r, Rest())
      ensures r.Success? ==> pos > old(pos)
      decreases |tokens| - pos, 10
    {
      var x :- ExpectIdent();
      var _ :- Expect(KwIn);
      var list :- ParseExpr();
      r := Success(Head(x, list, None));
    }

    method ParseCompHead() returns (r: Outcome<Head>)
      requires Valid()
      modifies this`pos
      ensures Valid() && HeadAgrees(G.ParseCompHead(old(Rest())), r, Rest())
      ensures r.Success? ==> pos > old(pos)
      decreases |tokens| - pos, 11
    {
      var b :- ParseBinder();
      var where := Eat(KwWhere);
      if !where {
        return Success(b);
      }
      var f :- ParseExpr();
      r := Success(Head(b.bound, b.list, Some(f)));
    }

    method ParseLast(sep: TokenKind, close: TokenKind) returns (r: Outcome<Expr>)
      requires Valid() && sep != Eof && close != Eof
      modifies this`pos
      ensures Valid() && Agrees(G.ParseLast(old(Rest()), sep, close), r, Rest())
      ensures r.Success? ==> pos > old(pos)
      decreases |tokens| - pos, 11
    {
      var _ :- Expect(sep);
      r := ParseClosed(close);
    }

    method ParseListComp() returns (r: Outcome<Expr>)
      requires Valid()
      modifies this`pos
      ensures Valid() && Agrees(G.ParseListComp(old(Rest())), r, Rest())
      ensures r.Success? ==> pos > old(pos)
      decreases |tokens| - pos, 2
    {
      var _ :- Expect(LBracket);
      ghost var ts := old(Rest());
      ListCompSteps(ts);
      ghost var g := G.ParseCompHead(Rest());
      var h :- ParseCompHead();
      ghost var last := G.ParseLast(Rest(), Pipe, RBracket);
      var projection :- ParseLast(Pipe, RBracket);
      AbsOfComp(g.bound, g.list, g.filter, last.tree);
      r := Success(ListComp(h.bound, h.list, h.filter, projection));
    }

    method ParseQuantHead() returns (r: Outcome<Head>)
      requires Valid()
      modifies this`pos
      ensures Valid() && HeadAgrees(G.ParseQuantHead(old(Rest())), r, Rest())
      ensures r.Success? ==> pos > old(pos)
      decreases |tokens| - pos, 11
    {
      var _ :- Expect(LParen);
      r := ParseBinder();
    }

    method ParseQuantifier() returns (r: Outcome<Expr>)
      requires Valid() && (tokens[pos] == KwNone || tokens[pos] == KwAny || tokens[pos] == KwAll)
      modifies this`pos
      ensures Valid() && Agrees(G.ParseQuantifier(old(Rest())), r, Rest())
      ensures r.Success? ==> pos > old(pos)
      decreases |tokens| - pos, 2
    {
      var t := Bump();
      ghost var ts := old(Rest());
      QuantifierSteps(ts);
      ghost var g := G.ParseQuantHead(Rest());
      var b :- ParseQuantHead();
      ghost var last := G.ParseLast(Rest(), KwWhere, RParen);
      var pred :- ParseLast(KwWhere, RParen);
      AbsOfQuant(G.QuantOf(t), g.bound, g.list, last.tree);
      r := Success(Quantifier(G.QuantOf(t), b.bound, b.list, pred));
    }
  }

  // A comma-separated list whose first items have been read already.
  ghost function Prepend<T>(items: seq<T>, g: G.Parsed<seq<T>>): G.Parsed<seq<T>> {
    match g
    case Failure(k) => Failure(k)
    case Success((more, rest)) => Success((items + more, rest))
  }

  lemma PrependNothing<T>(g: G.Parsed<seq<T>>)
    ensures Prepend([], g) == g
  {
    if g.Success? {
      assert [] + g.value.0 == g.value.0;
    }
  }

  lemma PrependToNothing<T>(items: seq<T>, rest: Tokens)
    ensures Prepend(items, Success(([], rest))) == Success((items, rest))
  {
    assert items + [] == items;
  }

  lemma PrependTwice<T>(items: seq<T>, x: T, g: G.Parsed<seq<T>>)
    ensures Prepend(items, Prepend([x], g)) == Prepend(items + [x], g)
  {
    if g.Success? {
      assert items + ([x] + g.value.0) == (items + [x]) + g.value.0;
    }
  }

  lemma AbsStepsAppend(ss: seq<StepSyn>, s: StepSyn)
    ensures AbsSteps(ss + [s]) == AbsSteps(ss) + [AbsStep(s)]
  {
  }

  lemma LiteralsStep(items: seq<Value>, ts: Tokens)
    requires G.Input(ts)
    ensures G.ParseLiteral(ts).Failure? ==> Prepend(items, G.ParseLiterals(ts)) == Failure(G.ParseLiteral(ts).error)
    ensures G.ParseLiteral(ts).Success? ==>
              var (v, rest) := G.ParseLiteral(ts).value;
              Prepend(items, G.ParseLiterals(ts)) == Prepend(items + [v], G.LiteralsTail(rest))
  {
    if G.ParseLiteral(ts).Success? {
      var (v, rest) := G.ParseLiteral(ts).value;
      PrependTwice(items, v, G.LiteralsTail(rest));
    }
  }

  lemma EntriesStep(items: seq<PropEntry>, ts: Tokens)
    requires G.Input(ts)
    ensures var g := Prepend(items, G.ParseEntries(ts));
            match G.ParseEntry(ts)
            case Failure(k) => g == Failure(k)
            case Success((e, rest)) => g == Prepend(items + [e], G.EntriesTail(rest))
  {
    if G.ParseEntry(ts).Success? {
      var (e, rest) := G.ParseEntry(ts).value;
      PrependTwice(items, e, G.EntriesTail(rest));
    }
  }

  lemma MoreTypesStep(items: seq<string>, ts: Tokens)
    requires G.Input(ts) && ts.head == Pipe
    ensures var g := Prepend(items, G.ParseMoreTypes(ts));
            match G.ParseIdent(ts.tail)
            case Failure(k) => g == Failure(k)
            case Success((t, rest)) => g == Prepend(items + [t], G.ParseMoreTypes(rest))
  {
    if G.ParseIdent(ts.tail).Success? {
      var (t, rest) := G.ParseIdent(ts.tail).value;
      PrependTwice(items, t, G.ParseMoreTypes(rest));
    }
  }

  lemma StepsStep(items: seq<StepSyn>, ts: Tokens)
    requires G.Input(ts) && (ts.head == Dash || ts.head == ArrowL)
    ensures var g := Prepend(items, G.ParseSteps(ts));
            match G.ParseStep(ts)
            case Failure(k) => g == Failure(k)
            case Success((s, rest)) => g == Prepend(items + [s], G.ParseSteps(rest))
  {
    if G.ParseStep(ts).Success? {
      var (s, rest) := G.ParseStep(ts).value;
      PrependTwice(items, s, G.ParseSteps(rest));
    }
  }

  lemma ListCompSteps(ts: Tokens)
    requires G.Input(ts) && ts.head == LBracket
    ensures var h := G.ParseCompHead(ts.tail);
            && (h.BadHead? ==> G.ParseListComp(ts) == G.Bad(h.kind))
            && (h.OkHead? ==>
                  var p := G.ParseLast(h.rest, Pipe, RBracket);
                  && (p.Bad? ==> G.ParseListComp(ts) == p)
                  && (p.Ok? ==> G.ParseListComp(ts) == G.Ok(Comp(h.bound, h.list, h.filter, p.tree), p.rest)))
  {
  }

  lemma QuantifierSteps(ts: Tokens)
    requires G.Input(ts) && (ts.head == KwNone || ts.head == KwAny || ts.head == KwAll)
    ensures var h := G.ParseQuantHead(ts.tail);
            && (h.BadHead? ==> G.ParseQuantifier(ts) == G.Bad(h.kind))
            && (h.OkHead? ==>
                  var p := G.ParseLast(h.rest, KwWhere, RParen);
                  && (p.Bad? ==> G.ParseQuantifier(ts) == p)
                  && (p.Ok? ==>
                        G.ParseQuantifier(ts) == G.Ok(Quant(G.QuantOf(ts.head), h.bound, h.list, p.tree), p.rest)))
  {
  }

  lemma CallSteps(ts: Tokens)
    requires G.Input(ts) && ts.head.Ident? && ts.tail.head == LParen
    requires G.Input(ts.tail) && G.Input(ts.tail.tail) && ts.tail.tail.head != Star
    ensures var a := G.ParseOptArgs(ts.tail.tail);
            && (a.BadArgs? ==> G.ParseFunctionCall(ts) == G.Bad(a.kind))
            && (a.OkArgs? && a.rest.head != RParen ==> G.ParseFunctionCall(ts) == G.Bad(Parse))
            && (a.OkArgs? && a.rest.head == RParen ==>
                  G.ParseFunctionCall(ts) == G.Ok(Call(ts.head.name, a.trees), a.rest.tail))
  {
  }

  lemma AbsOfComp(x: string, list: Syn, filter: Option<Syn>, projection: Syn)
    ensures Abs(Comp(x, list, filter, projection)) == ListComp(x, Abs(list), AbsFilter(filter), Abs(projection))
  {
  }

  lemma AbsOfQuant(q: QuantifierKind, x: string, list: Syn, pred: Syn)
    ensures Abs(Quant(q, x, list, pred)) == Quantifier(q, x, Abs(list), Abs(pred))
  {
  }

  lemma AbsOfPattern(negated: bool, p: PathSyn)
    ensures Abs(Pat(negated, p)) == PatternPredicate(negated, AbsPath(p))
    ensures |AbsPath(p).steps| == |p.steps|
  {
  }

  lemma PatternSteps(negated: bool, ts: Tokens)
    requires G.Input(ts)
    ensures var g := G.ParsePathPattern(ts);
            && (g.Failure? ==> G.ParsePatternPredicate(negated, ts) == G.Bad(g.error))
            && (g.Success? ==>
                  var (p, rest) := g.value;
                  G.ParsePatternPredicate(negated, ts) ==
                  if p.steps == [] then G.Bad(Parse) else G.Ok(Pat(negated, p), rest))
  {
  }

  lemma AbsOfBin(op: BinOp, l: Syn, r: Syn)
    ensures Abs(Bin(op, l, r)) == Binary(op, Abs(l), Abs(r))
  {
  }

  lemma AbsOfCall(name: string, args: seq<Syn>)
    ensures Abs(Call(name, args)) == FunctionCall(name, AbsArgs(args))
  {
  }

  lemma SegmentsStep(items: seq<string>, ts: Tokens)
    requires G.Input(ts) && ts.head == Dot
    ensures var g := Prepend(items, G.ParseSegments(ts));
            match G.ParseIdent(ts.tail)
            case Failure(k) => g == Failure(k)
            case Success((t, rest)) => g == Prepend(items + [t], G.ParseSegments(rest))
  {
    if G.ParseIdent(ts.tail).Success? {
      var (t, rest) := G.ParseIdent(ts.tail).value;
      PrependTwice(items, t, G.ParseSegments(rest));
    }
  }

  lemma AbsArgsAppend(cs: seq<Syn>, c: Syn)
    ensures AbsArgs(cs + [c]) == AbsArgs(cs) + [Abs(c)]
  {
  }

  lemma ArgsStep(items: seq<Syn>, ts: Tokens)
    requires G.Input(ts)
    ensures var g := G.PrependArgs(items, G.ParseArgs(ts));
            match G.ParseOr(ts)
            case Bad(k) => g == G.BadArgs(k)
            case Ok(a, rest) => g == G.PrependArgs(items + [a], G.ArgsTail(rest))
  {
    match G.ParseOr(ts)
    case Bad(_) =>
    case Ok(a, rest) =>
      match G.ArgsTail(rest)
      case BadArgs(_) =>
      case OkArgs(more, _) => assert items + ([a] + more) == (items + [a]) + more;
  }
}
