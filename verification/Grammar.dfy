// What the recursive-descent parser computes, as functions from a token list to a syntax tree and
// the tokens it leaves.
module Grammar {
  import opened Prelude
  import opened Token
  import V = Values
  import opened Ast
  import opened Syntax

  type Parsed<+T> = Result<(T, Tokens), ErrorKind>

  // A token list as the lexer delivers it, or what is left of one: it ends in Eof.
  predicate Input(ts: Tokens) {
    ts.Cons? && if ts.tail.Nil? then ts.head == Eof else Input(ts.tail)
  }

  // The list after one token other than Eof.
  function Next(ts: Tokens): (r: Tokens)
    requires Input(ts) && ts.head != Eof
    ensures Input(r) && ts == Cons(ts.head, r) && Length(ts) == Length(r) + 1
  {
    ts.tail
  }

  function Expect(ts: Tokens, kind: TokenKind): (r: Result<Tokens, ErrorKind>)
    requires Input(ts) && kind != Eof
    ensures r.Success? ==>
              && Input(r.value) && Length(r.value) < Length(ts) && ts == Cons(kind, r.value)
    ensures r.Failure? <==> ts.head != kind
  {
    if ts.head == kind then Success(ts.tail) else Failure(Parse)
  }

  // ---- literals ----

  function ParseLiteral(ts: Tokens): (r: Parsed<Value>)
    requires Input(ts)
    ensures r.Success? ==>
              && IsLiteral(r.value.0) && Input(r.value.1) && Length(r.value.1) < Length(ts)
              && ts == SpellLit(r.value.0, r.value.1)
    decreases Length(ts), 1
  {
    match ts.head
    case Str(s) => Success((V.Value.Str(s), Next(ts)))
    case Int(n) => Success((V.Value.Int(n), Next(ts)))
    case Float(f) => Success((V.Value.Float(f), Next(ts)))
    case KwTrue => Success((V.Bool(true), Next(ts)))
    case KwFalse => Success((V.Bool(false), Next(ts)))
    case KwNull => Success((V.Null, Next(ts)))
    case LBracket => ParseListLiteral(ts)
    case _ => Failure(Parse)
  }

  function ParseListLiteral(ts: Tokens): (r: Parsed<Value>)
    requires Input(ts)
    ensures r.Success? ==>
              && r.value.0.List? && IsLiteral(r.value.0)
              && Input(r.value.1) && Length(r.value.1) < Length(ts)
              && ts == SpellLit(r.value.0, r.value.1)
    decreases Length(ts), 0
  {
    if ts.head != LBracket then Failure(Parse)
    else if Next(ts).head == RBracket then Success((V.List([]), Next(Next(ts))))
    else
      var (items, rest) :- ParseLiterals(Next(ts));
      if rest.head != RBracket then Failure(Parse) else Success((V.List(items), Next(rest)))
  }

  function ParseLiterals(ts: Tokens): (r: Parsed<seq<Value>>)
    requires Input(ts)
    ensures r.Success? ==>
              && r.value.0 != [] && Input(r.value.1) && Length(r.value.1) < Length(ts)
              && (forall i | 0 <= i < |r.value.0| :: IsLiteral(r.value.0[i]))
              && ts == SpellLits(r.value.0, r.value.1)
    decreases Length(ts), 2
  {
    var (v, rest) :- ParseLiteral(ts);
    var (vs, rest') :- LiteralsTail(rest);
    assert ([v] + vs)[1..] == vs;
    Success(([v] + vs, rest'))
  }

  // What may follow a list item: a comma and more items, or nothing.
  function LiteralsTail(ts: Tokens): (r: Parsed<seq<Value>>)
    requires Input(ts)
    ensures r.Success? ==>
              && Input(r.value.1) && Length(r.value.1) <= Length(ts)
              && (forall i | 0 <= i < |r.value.0| :: IsLiteral(r.value.0[i]))
              && ts == (if r.value.0 == [] then r.value.1 else Cons(Comma, SpellLits(r.value.0, r.value.1)))
    decreases Length(ts), 1
  {
    if ts.head != Comma then Success(([], ts)) else ParseLiterals(Next(ts))
  }

  // ---- patterns ----

  function ParseOptIdent(ts: Tokens): (r: (Option<string>, Tokens))
    requires Input(ts)
    ensures Input(r.1) && Length(r.1) <= Length(ts) && ts == SpellOptIdent(r.0, r.1)
  {
    if ts.head.Ident? then (Some(ts.head.name), Next(ts)) else (None, ts)
  }

  function ParseIdent(ts: Tokens): (r: Parsed<string>)
    requires Input(ts)
    ensures r.Success? ==>
              && Input(r.value.1) && Length(r.value.1) < Length(ts)
              && ts == Cons(Ident(r.value.0), r.value.1)
  {
    if ts.head.Ident? then Success((ts.head.name, Next(ts))) else Failure(Parse)
  }

  function ParseEntry(ts: Tokens): (r: Parsed<PropEntry>)
    requires Input(ts)
    ensures r.Success? ==>
              && IsLiteral(r.value.0.value) && Input(r.value.1) && Length(r.value.1) < Length(ts)
              && ts == Cons(Ident(r.value.0.key), Cons(Colon, SpellLit(r.value.0.value, r.value.1)))
  {
    var (key, r1) :- ParseIdent(ts);
    var r2 :- Expect(r1, Colon);
    var (v, r3) :- ParseLiteral(r2);
    Success((PropEntry(key, v), r3))
  }

  function ParseEntries(ts: Tokens): (r: Parsed<seq<PropEntry>>)
    requires Input(ts)
    ensures r.Success? ==>
              && r.value.0 != [] && PropsWf(r.value.0)
              && Input(r.value.1) && Length(r.value.1) < Length(ts)
              && ts == SpellEntries(r.value.0, r.value.1)
    decreases Length(ts), 1
  {
    var (e, r1) :- ParseEntry(ts);
    var (es, r2) :- EntriesTail(r1);
    assert ([e] + es)[1..] == es;
    Success(([e] + es, r2))
  }

  function EntriesTail(ts: Tokens): (r: Parsed<seq<PropEntry>>)
    requires Input(ts)
    ensures r.Success? ==>
              && PropsWf(r.value.0) && Input(r.value.1) && Length(r.value.1) <= Length(ts)
              && ts == (if r.value.0 == [] then r.value.1 else Cons(Comma, SpellEntries(r.value.0, r.value.1)))
    decreases Length(ts), 0
  {
    if ts.head != Comma then Success(([], ts)) else ParseEntries(Next(ts))
  }

  function ParsePropMap(ts: Tokens): (r: Parsed<seq<PropEntry>>)
    requires Input(ts)
    ensures r.Success? ==>
              && PropsWf(r.value.0) && Input(r.value.1) && Length(r.value.1) < Length(ts)
              && ts == SpellProps(Some(r.value.0), r.value.1)
  {
    if ts.head != LBrace then Failure(Parse)
    else if Next(ts).head == RBrace then Success(([], Next(Next(ts))))
    else
      var (es, rest) :- ParseEntries(Next(ts));
      if rest.head != RBrace then Failure(Parse) else Success((es, Next(rest)))
  }

  // The property map of a node or relationship is optional.
  function ParseOptProps(ts: Tokens): (r: Parsed<Option<seq<PropEntry>>>)
    requires Input(ts)
    ensures r.Success? ==>
              && (r.value.0.Some? ==> PropsWf(r.value.0.value))
              && Input(r.value.1) && Length(r.value.1) <= Length(ts)
              && ts == SpellProps(r.value.0, r.value.1)
  {
    if ts.head != LBrace then Success((None, ts))
    else
      var (ps, rest) :- ParsePropMap(ts);
      Success((Some(ps), rest))
  }

  function ParseOptTag(ts: Tokens): (r: Parsed<Option<string>>)
    requires Input(ts)
    ensures r.Success? ==>
              && Input(r.value.1) && Length(r.value.1) <= Length(ts) && ts == SpellTag(r.value.0, r.value.1)
  {
    if ts.head != Colon then Success((None, ts))
    else
      var (name, rest) :- ParseIdent(Next(ts));
      Success((Some(name), rest))
  }

  function ParseNodePat(ts: Tokens): (r: Parsed<NodeSyn>)
    requires Input(ts)
    ensures r.Success? ==>
              && NodeWf(r.value.0) && Input(r.value.1) && Length(r.value.1) < Length(ts)
              && ts == SpellNode(r.value.0, r.value.1)
  {
    if ts.head != LParen then Failure(Parse)
    else
      var (v, r1) := ParseOptIdent(Next(ts));
      var (tag, r2) :- ParseOptTag(r1);
      var (props, r3) :- ParseOptProps(r2);
      if r3.head != RParen then Failure(Parse) else Success((NodeSyn(v, tag, props), Next(r3)))
  }

  function ParseMoreTypes(ts: Tokens): (r: Parsed<seq<string>>)
    requires Input(ts)
    ensures r.Success? ==>
              && Input(r.value.1) && Length(r.value.1) <= Length(ts)
              && ts == SpellMoreTypes(r.value.0, r.value.1)
    decreases Length(ts)
  {
    if ts.head != Pipe then Success(([], ts))
    else
      var (name, rest) :- ParseIdent(Next(ts));
      var (more, rest') :- ParseMoreTypes(rest);
      assert ([name] + more)[1..] == more;
      Success(([name] + more, rest'))
  }

  // After the colon. A second `:` is the deferred sub-type qualifier.
  function ParseRelTypes(ts: Tokens): (r: Parsed<seq<string>>)
    requires Input(ts)
    ensures r.Success? ==>
              && r.value.0 != [] && Input(r.value.1) && Length(r.value.1) < Length(ts)
              && Cons(Colon, ts) == SpellTypes(r.value.0, r.value.1)
  {
    var (name, rest) :- ParseIdent(ts);
    if rest.head == Colon then Failure(Plan)
    else
      var (more, rest') :- ParseMoreTypes(rest);
      assert ([name] + more)[1..] == more;
      Success(([name] + more, rest'))
  }

  function ParseOptTypes(ts: Tokens): (r: Parsed<seq<string>>)
    requires Input(ts)
    ensures r.Success? ==>
              && Input(r.value.1) && Length(r.value.1) <= Length(ts) && ts == SpellTypes(r.value.0, r.value.1)
  {
    if ts.head != Colon then Success(([], ts)) else ParseRelTypes(Next(ts))
  }

  function ParseOptBound(ts: Tokens): (r: Parsed<Option<nat>>)
    requires Input(ts)
    ensures r.Success? ==>
              && BoundWf(r.value.0) && Input(r.value.1) && Length(r.value.1) <= Length(ts)
              && ts == SpellBound(r.value.0, r.value.1)
  {
    if !ts.head.Int? then Success((None, ts))
    else if 0 <= ts.head.n < U32_LIMIT then Success((Some(ts.head.n), Next(ts)))
    else Failure(Parse)
  }

  function ParseVarLen(ts: Tokens): (r: Parsed<VarLenSyn>)
    requires Input(ts)
    ensures r.Success? ==>
              && VarLenWf(r.value.0) && Input(r.value.1) && Length(r.value.1) <= Length(ts)
              && ts == SpellVarLen(Some(r.value.0), r.value.1)
  {
    if ts.head != Star then Failure(Parse)
    else
      var (min, r1) :- ParseOptBound(Next(ts));
      if r1.head != DotDot then Success((VarLenSyn(min, false, None), r1))
      else
        var (max, r2) :- ParseOptBound(Next(r1));
        Success((VarLenSyn(min, true, max), r2))
  }

  function ParseOptVarLen(ts: Tokens): (r: Parsed<Option<VarLenSyn>>)
    requires Input(ts)
    ensures r.Success? ==>
              && (r.value.0.Some? ==> VarLenWf(r.value.0.value))
              && Input(r.value.1) && Length(r.value.1) <= Length(ts)
              && ts == SpellVarLen(r.value.0, r.value.1)
  {
    if ts.head != Star then Success((None, ts))
    else
      var (l, rest) :- ParseVarLen(ts);
      Success((Some(l), rest))
  }

  // The end of a bracketed relationship: length bound, property map and `]`.
  function ParseRelTail(ts: Tokens): (r: Parsed<(Option<VarLenSyn>, Option<seq<PropEntry>>)>)
    requires Input(ts)
    ensures r.Success? ==>
              && (r.value.0.0.Some? ==> VarLenWf(r.value.0.0.value))
              && (r.value.0.1.Some? ==> PropsWf(r.value.0.1.value))
              && Input(r.value.1) && Length(r.value.1) < Length(ts)
              && ts == SpellVarLen(r.value.0.0, SpellProps(r.value.0.1, Cons(RBracket, r.value.1)))
  {
    var (varLen, r1) :- ParseOptVarLen(ts);
    var (props, r2) :- ParseOptProps(r1);
    var r3 :- Expect(r2, RBracket);
    Success(((varLen, props), r3))
  }

  // A bracketed relationship after its `[`.
  function ParseBodyInside(ts: Tokens): (r: Parsed<RelBody>)
    requires Input(ts)
    ensures r.Success? ==>
              && BodyWf(Some(r.value.0)) && Input(r.value.1) && Length(r.value.1) < Length(ts)
              && Cons(LBracket, ts) == SpellBody(Some(r.value.0), r.value.1)
  {
    var (v, r1) := ParseOptIdent(ts);
    var (types, r2) :- ParseOptTypes(r1);
    var (t, r3) :- ParseRelTail(r2);
    Success((RelBody(v, types, t.0, t.1), r3))
  }

  function ParseRelBody(ts: Tokens): (r: Parsed<Option<RelBody>>)
    requires Input(ts)
    ensures r.Success? ==>
              && BodyWf(r.value.0) && Input(r.value.1) && Length(r.value.1) <= Length(ts)
              && ts == SpellBody(r.value.0, r.value.1)
  {
    if ts.head != LBracket then Success((None, ts))
    else
      var (b, rest) :- ParseBodyInside(Next(ts));
      Success((Some(b), rest))
  }

  function ParseRelPat(ts: Tokens): (r: Parsed<RelSyn>)
    requires Input(ts)
    ensures r.Success? ==>
              && BodyWf(r.value.0.body) && Input(r.value.1) && Length(r.value.1) < Length(ts)
              && ts == SpellRel(r.value.0, r.value.1)
  {
    if ts.head != Dash && ts.head != ArrowL then Failure(Parse)
    else
      var leadingBack := ts.head == ArrowL;
      var (body, r1) :- ParseRelBody(Next(ts));
      if r1.head != ArrowR && r1.head != Dash then Failure(Parse)
      else
        var trailingForward := r1.head == ArrowR;
        if leadingBack == trailingForward then Failure(Parse)
        else Success((RelSyn(if leadingBack then Backward else Forward, body), Next(r1)))
  }

  function ParseStep(ts: Tokens): (r: Parsed<StepSyn>)
    requires Input(ts)
    ensures r.Success? ==>
              && StepWf(r.value.0) && Input(r.value.1) && Length(r.value.1) < Length(ts)
              && ts == SpellStep(r.value.0, r.value.1)
  {
    var (rel, r1) :- ParseRelPat(ts);
    var (node, r2) :- ParseNodePat(r1);
    Success((StepSyn(rel, node), r2))
  }

  function ParseSteps(ts: Tokens): (r: Parsed<seq<StepSyn>>)
    requires Input(ts)
    ensures r.Success? ==>
              && StepsWf(r.value.0) && Input(r.value.1) && Length(r.value.1) <= Length(ts)
              && ts == SpellSteps(r.value.0, r.value.1)
    decreases Length(ts)
  {
    if ts.head != Dash && ts.head != ArrowL then Success(([], ts))
    else
      var (s, r1) :- ParseStep(ts);
      var (more, r2) :- ParseSteps(r1);
      assert ([s] + more)[1..] == more;
      Success(([s] + more, r2))
  }

  function ParsePathVar(ts: Tokens): (r: (Option<string>, Tokens))
    requires Input(ts)
    ensures Input(r.1) && Length(r.1) <= Length(ts)
    ensures r.0.Some? ==> ts == Cons(Ident(r.0.value), Cons(TokenKind.Eq, r.1))
    ensures r.0.None? ==> ts == r.1
  {
    if ts.head.Ident? && Next(ts).head == TokenKind.Eq then (Some(ts.head.name), Next(Next(ts))) else (None, ts)
  }

  function ParsePathPattern(ts: Tokens): (r: Parsed<PathSyn>)
    requires Input(ts)
    ensures r.Success? ==>
              && PathWf(r.value.0) && Input(r.value.1) && Length(r.value.1) < Length(ts)
              && ts == SpellPath(r.value.0, r.value.1)
  {
    var (pathVar, r0) := ParsePathVar(ts);
    var (start, r1) :- ParseNodePat(r0);
    var (steps, r2) :- ParseSteps(r1);
    Success((PathSyn(pathVar, start, steps), r2))
  }

  // ---- lookahead ----

  // Scans for the parenthesis that closes `depth` open ones: is the token after it an arrow?
  predicate ClosesBeforeArrow(ts: Tokens, depth: nat) {
    if ts.Nil? || ts.head == Eof then false
    else if ts.head == LParen then ClosesBeforeArrow(ts.tail, depth + 1)
    else if ts.head != RParen then ClosesBeforeArrow(ts.tail, depth)
    else if depth > 1 then ClosesBeforeArrow(ts.tail, depth - 1)
    else ts.tail.Cons? && (ts.tail.head == Dash || ts.tail.head == ArrowL)
  }

  predicate StartsPattern(ts: Tokens)
    requires Input(ts)
  {
    ts.head == LParen && ClosesBeforeArrow(ts, 0)
  }

  predicate BracketIsComprehension(ts: Tokens)
    requires Input(ts)
  {
    ts.tail.Cons? && ts.tail.head.Ident? && ts.tail.tail.Cons? && ts.tail.tail.head == KwIn
  }

  // ---- expressions ----

  function UpperChar(c: char): char {
    if 'a' <= c <= 'z' then (c as int - 32) as char else c
  }

  // The name of the deferred `IS` predicates, compared ignoring ASCII case.
  predicate IsIs(name: string) {
    |name| == 2 && UpperChar(name[0]) == 'I' && UpperChar(name[1]) == 'S'
  }

  function ComparisonOp(t: TokenKind): (r: Option<BinOp>)
    ensures r.Some? ==> OpTok(r.value) == t && r.value != OpOr && r.value != OpAnd
  {
    match t
    case Eq => Some(OpEq)
    case Ne => Some(OpNe)
    case Lt => Some(OpLt)
    case Le => Some(OpLe)
    case Gt => Some(OpGt)
    case Ge => Some(OpGe)
    case KwIn => Some(OpIn)
    case _ => None
  }

  // A tree and the tokens it leaves; likewise for the parts of an expression below.
  datatype Res = Ok(tree: Syn, rest: Tokens) | Bad(kind: ErrorKind)

  datatype ArgsRes = OkArgs(trees: seq<Syn>, rest: Tokens) | BadArgs(kind: ErrorKind)

  datatype HeadRes = OkHead(bound: string, list: Syn, filter: Option<Syn>, rest: Tokens) | BadHead(kind: ErrorKind)

  predicate Advances(r: Res, ts: Tokens) {
    r.Ok? ==> Input(r.rest) && Length(r.rest) < Length(ts)
  }

  predicate HeadAdvances(r: HeadRes, ts: Tokens) {
    r.OkHead? ==> Input(r.rest) && Length(r.rest) < Length(ts)
  }

  function ParseOr(ts: Tokens): (r: Res)
    requires Input(ts)
    ensures Advances(r, ts)
    decreases Length(ts), 9
  {
    match ParseAnd(ts)
    case Bad(k) => Bad(k)
    case Ok(lhs, rest) => OrTail(lhs, rest)
  }

  function OrTail(lhs: Syn, ts: Tokens): (r: Res)
    requires Input(ts)
    ensures r.Ok? ==> Input(r.rest) && Length(r.rest) <= Length(ts)
    decreases Length(ts), 8
  {
    if ts.head != KwOr then Ok(lhs, ts)
    else
      match ParseAnd(Next(ts))
      case Bad(k) => Bad(k)
      case Ok(rhs, rest) => OrTail(Bin(OpOr, lhs, rhs), rest)
  }

  function ParseAnd(ts: Tokens): (r: Res)
    requires Input(ts)
    ensures Advances(r, ts)
    decreases Length(ts), 7
  {
    match ParseNot(ts)
    case Bad(k) => Bad(k)
    case Ok(lhs, rest) => AndTail(lhs, rest)
  }

  function AndTail(lhs: Syn, ts: Tokens): (r: Res)
    requires Input(ts)
    ensures r.Ok? ==> Input(r.rest) && Length(r.rest) <= Length(ts)
    decreases Length(ts), 6
  {
    if ts.head != KwAnd then Ok(lhs, ts)
    else
      match ParseNot(Next(ts))
      case Bad(k) => Bad(k)
      case Ok(rhs, rest) => AndTail(Bin(OpAnd, lhs, rhs), rest)
  }

  // A bare pattern predicate must have a relationship.
  function ParsePatternPredicate(negated: bool, ts: Tokens): (r: Res)
    requires Input(ts)
    ensures Advances(r, ts)
  {
    match ParsePathPattern(ts)
    case Failure(k) => Bad(k)
    case Success((p, rest)) => if p.steps == [] then Bad(Parse) else Ok(Pat(negated, p), rest)
  }

  function ParseNot(ts: Tokens): (r: Res)
    requires Input(ts)
    ensures Advances(r, ts)
    decreases Length(ts), 5
  {
    if ts.head == KwNot then ParseNegated(Next(ts))
    else if StartsPattern(ts) then ParsePatternPredicate(false, ts)
    else ParseComparison(ts)
  }

  // After NOT.
  function ParseNegated(ts: Tokens): (r: Res)
    requires Input(ts)
    ensures Advances(r, ts)
    decreases Length(ts), 6
  {
    if StartsPattern(ts) then ParsePatternPredicate(true, ts)
    else
      match ParseNot(ts)
      case Bad(k) => Bad(k)
      case Ok(inner, rest) => Ok(Neg(inner), rest)
  }

  function ParseComparison(ts: Tokens): (r: Res)
    requires Input(ts)
    ensures Advances(r, ts)
    decreases Length(ts), 4
  {
    match ParsePrimary(ts)
    case Bad(k) => Bad(k)
    case Ok(lhs, rest) => ComparisonTail(lhs, rest)
  }

  function ComparisonTail(lhs: Syn, ts: Tokens): (r: Res)
    requires Input(ts)
    ensures r.Ok? ==> Input(r.rest) && Length(r.rest) <= Length(ts)
    decreases Length(ts), 4
  {
    if ts.head.Ident? && IsIs(ts.head.name) then Bad(Plan)
    else if ComparisonOp(ts.head).None? then Ok(lhs, ts)
    else
      match ParsePrimary(Next(ts))
      case Bad(k) => Bad(k)
      case Ok(rhs, rest) => Ok(Bin(ComparisonOp(ts.head).value, lhs, rhs), rest)
  }

  function ParsePrimary(ts: Tokens): (r: Res)
    requires Input(ts)
    ensures Advances(r, ts)
    decreases Length(ts), 3
  {
    if ts.head == LParen then ParseGroup(ts)
    else if ts.head == LBracket then ParseBracket(ts)
    else if ts.head == KwNone || ts.head == KwAny || ts.head == KwAll then ParseQuantifier(ts)
    else if !ts.head.Ident? then ParseScalar(ts)
    else if Next(ts).head == LParen then ParseFunctionCall(ts)
    else ParseProperty(ts)
  }

  function ParseGroup(ts: Tokens): (r: Res)
    requires Input(ts) && ts.head == LParen
    ensures Advances(r, ts)
    decreases Length(ts), 2
  {
    match ParseClosed(Next(ts), RParen)
    case Bad(k) => Bad(k)
    case Ok(e, rest) => Ok(Group(e), rest)
  }

  function ParseProperty(ts: Tokens): (r: Res)
    requires Input(ts) && ts.head.Ident?
    ensures Advances(r, ts)
  {
    match ParseSegments(Next(ts))
    case Failure(k) => Bad(k)
    case Success((segments, rest)) => Ok(Prop(ts.head.name, segments), rest)
  }

  function ParseBracket(ts: Tokens): (r: Res)
    requires Input(ts)
    ensures Advances(r, ts)
    decreases Length(ts), 2
  {
    if BracketIsComprehension(ts) then ParseListComp(ts)
    else
      match ParseListLiteral(ts)
      case Failure(k) => Bad(k)
      case Success((v, rest)) => Ok(Lit(v), rest)
  }

  function ParseScalar(ts: Tokens): (r: Res)
    requires Input(ts)
    ensures Advances(r, ts)
  {
    match ParseLiteral(ts)
    case Failure(k) => Bad(k)
    case Success((v, rest)) => Ok(Lit(v), rest)
  }

  function ParseSegments(ts: Tokens): (r: Parsed<seq<string>>)
    requires Input(ts)
    ensures r.Success? ==>
              && Input(r.value.1) && Length(r.value.1) <= Length(ts)
              && ts == SpellSegments(r.value.0, r.value.1)
    decreases Length(ts)
  {
    if ts.head != Dot then Success(([], ts))
    else
      var (s, rest) :- ParseIdent(Next(ts));
      var (more, rest') :- ParseSegments(rest);
      assert ([s] + more)[1..] == more;
      Success(([s] + more, rest'))
  }

  function ParseFunctionCall(ts: Tokens): (r: Res)
    requires Input(ts) && ts.head.Ident?
    ensures Advances(r, ts)
    decreases Length(ts), 2
  {
    if Next(ts).head != LParen then Bad(Parse)
    else if Next(Next(ts)).head == Star then ParseStarArg(ts.head.name, Next(Next(ts)))
    else
      match ParseOptArgs(Next(Next(ts)))
      case BadArgs(k) => Bad(k)
      case OkArgs(args, rest) =>
        if rest.head != RParen then Bad(Parse) else Ok(Call(ts.head.name, args), Next(rest))
  }

  // `f(*)`, from the star on.
  function ParseStarArg(name: string, ts: Tokens): (r: Res)
    requires Input(ts) && ts.head == Star
    ensures Advances(r, ts)
  {
    if Next(ts).head != RParen then Bad(Parse) else Ok(CallStar(name), Next(Next(ts)))
  }

  function ParseOptArgs(ts: Tokens): (r: ArgsRes)
    requires Input(ts)
    ensures r.OkArgs? ==> Input(r.rest) && Length(r.rest) <= Length(ts)
    decreases Length(ts), 13
  {
    if ts.head == RParen then OkArgs([], ts) else ParseArgs(ts)
  }

  function ParseArgs(ts: Tokens): (r: ArgsRes)
    requires Input(ts)
    ensures r.OkArgs? ==> r.trees != [] && Input(r.rest) && Length(r.rest) < Length(ts)
    decreases Length(ts), 12
  {
    match ParseOr(ts)
    case Bad(k) => BadArgs(k)
    case Ok(a, rest) => PrependArgs([a], ArgsTail(rest))
  }

  function ArgsTail(ts: Tokens): (r: ArgsRes)
    requires Input(ts)
    ensures r.OkArgs? ==> Input(r.rest) && Length(r.rest) <= Length(ts)
    decreases Length(ts), 10
  {
    if ts.head != Comma then OkArgs([], ts) else ParseArgs(Next(ts))
  }

  function PrependArgs(first: seq<Syn>, g: ArgsRes): ArgsRes {
    match g
    case BadArgs(k) => BadArgs(k)
    case OkArgs(more, rest) => OkArgs(first + more, rest)
  }

  // An expression and the bracket that closes it.
  function ParseClosed(ts: Tokens, close: TokenKind): (r: Res)
    requires Input(ts) && close != Eof
    ensures Advances(r, ts)
    decreases Length(ts), 10
  {
    match ParseOr(ts)
    case Bad(k) => Bad(k)
    case Ok(e, rest) => if rest.head != close then Bad(Parse) else Ok(e, Next(rest))
  }

  // A separator, an expression and the bracket that closes it.
  function ParseLast(ts: Tokens, sep: TokenKind, close: TokenKind): (r: Res)
    requires Input(ts) && sep != Eof && close != Eof
    ensures Advances(r, ts)
    decreases Length(ts), 11
  {
    if ts.head != sep then Bad(Parse) else ParseClosed(Next(ts), close)
  }

  // `x IN list`, the head of a comprehension or quantifier.
  function ParseBinder(ts: Tokens): (r: HeadRes)
    requires Input(ts)
    ensures HeadAdvances(r, ts)
    decreases Length(ts), 10
  {
    if !ts.head.Ident? || Next(ts).head != KwIn then BadHead(Parse)
    else
      match ParseOr(Next(Next(ts)))
      case Bad(k) => BadHead(k)
      case Ok(list, rest) => OkHead(ts.head.name, list, None, rest)
  }

  // The head of a comprehension may filter.
  function ParseCompHead(ts: Tokens): (r: HeadRes)
    requires Input(ts)
    ensures HeadAdvances(r, ts)
    decreases Length(ts), 11
  {
    match ParseBinder(ts)
    case BadHead(k) => BadHead(k)
    case OkHead(x, list, _, rest) =>
      if rest.head != KwWhere then OkHead(x, list, None, rest)
      else
        match ParseOr(Next(rest))
        case Bad(k) => BadHead(k)
        case Ok(f, rest') => OkHead(x, list, Some(f), rest')
  }

  function ParseListComp(ts: Tokens): (r: Res)
    requires Input(ts)
    ensures Advances(r, ts)
    decreases Length(ts), 1
  {
    if ts.head != LBracket then Bad(Parse)
    else
      match ParseCompHead(Next(ts))
      case BadHead(k) => Bad(k)
      case OkHead(x, list, filter, rest) =>
        match ParseLast(rest, Pipe, RBracket)
        case Bad(k) => Bad(k)
        case Ok(projection, rest') => Ok(Comp(x, list, filter, projection), rest')
  }

  function QuantOf(t: TokenKind): (q: QuantifierKind)
    requires t == KwNone || t == KwAny || t == KwAll
    ensures QuantTok(q) == t
  {
    if t == KwNone then QNone else if t == KwAny then QAny else QAll
  }

  // After the quantifier's name.
  function ParseQuantHead(ts: Tokens): (r: HeadRes)
    requires Input(ts)
    ensures HeadAdvances(r, ts)
    decreases Length(ts), 11
  {
    if ts.head != LParen then BadHead(Parse) else ParseBinder(Next(ts))
  }

  function ParseQuantifier(ts: Tokens): (r: Res)
    requires Input(ts) && (ts.head == KwNone || ts.head == KwAny || ts.head == KwAll)
    ensures Advances(r, ts)
    decreases Length(ts), 1
  {
    match ParseQuantHead(Next(ts))
    case BadHead(k) => Bad(k)
    case OkHead(x, list, _, rest) =>
      match ParseLast(rest, KwWhere, RParen)
      case Bad(k) => Bad(k)
      case Ok(pred, rest') => Ok(Quant(QuantOf(ts.head), x, list, pred), rest')
  }
}
