// From text to AST and back: an expression's rendering, written out with canonical token texts,
// lexes and parses to the expression (crates/cgx-cql/src/token.rs, crates/cgx-cql/src/parser.rs).
module QueryText {
  import opened Token
  import opened Ast
  import opened Syntax
  import opened Grammar
  import opened ParserTheorems
  import opened Lexing
  import opened Canonical
  import opened Writable

  // The kinds before the final Eof.
  function Body(ts: Tokens): seq<TokenKind>
    requires Input(ts)
  {
    if ts.tail.Nil? then [] else [ts.head] + Body(ts.tail)
  }

  // The token list of what the lexer returns.
  function Listed(ks: seq<TokenKind>): Tokens {
    if ks == [] then Nil else Tokens.Cons(ks[0], Listed(ks[1..]))
  }

  lemma {:induction false} ListedBody(ts: Tokens)
    requires Input(ts)
    ensures Listed(Body(ts) + [Eof]) == ts
    decreases ts
  {
    if ts.tail.Nil? {
      assert Body(ts) + [Eof] == [Eof] && [Eof][1..] == [];
      assert Listed([Eof]) == Tokens.Cons(Eof, Listed([]));
    } else {
      ListedBody(ts.tail);
      assert (Body(ts) + [Eof])[1..] == Body(ts.tail) + [Eof];
    }
  }

  predicate AllCanonical(ks: seq<TokenKind>) {
    forall i | 0 <= i < |ks| :: Canonical.Canonical(ks[i])
  }

  // Canonical tokens survive being written out and lexed.
  lemma TokensSurvive(ts: Tokens)
    requires Input(ts) && AllCanonical(Body(ts))
    ensures LexesTo(Join(Texts(Body(ts))), 0, LexOne, Body(ts) + [Eof])
    ensures Listed(Body(ts) + [Eof]) == ts
  {
    CanonicalRoundTrip(Body(ts));
    ListedBody(ts);
  }

  // The text of `e` lexes to tokens that parse to `e`.
  ghost predicate TextParsesBack(e: Expr, ts: Tokens)
    requires Input(ts)
  {
    var ks := Body(ts) + [Eof];
    LexesTo(Join(Texts(Body(ts))), 0, LexOne, ks) && Input(Listed(ks)) && Produces(Listed(ks), e)
  }

  lemma {:induction false} CleanBody(ts: Tokens)
    requires Input(ts)
    ensures Clean(ts, (k: TokenKind) => Canonical.Canonical(k)) <==> AllCanonical(Body(ts))
    decreases ts
  {
    if ts.tail.Cons? {
      CleanBody(ts.tail);
      var ks, rest := Body(ts), Body(ts.tail);
      assert ks[0] == ts.head && forall i | 0 < i < |ks| :: ks[i] == rest[i - 1];
      assert forall i | 0 <= i < |rest| :: rest[i] == ks[i + 1];
    }
  }

  // An expression whose names, integers and literals can be written survives printing, lexing and
  // parsing; all tokens of its rendering have a canonical text exactly when they can.
  lemma TextRoundTrip(e: Expr, full: bool) returns (ts: Tokens)
    requires Parseable(e)
    ensures Wf(Print(e, full)) && ts == Spell(Print(e, full), END) && Input(ts)
    ensures AllCanonical(Body(ts)) <==> CanBeWritten(e)
    ensures CanBeWritten(e) ==> TextParsesBack(e, ts)
  {
    PrintedExprParsesBack(e, full);
    ts := Spell(Print(e, full), END);
    CleanExpr(e, full, END, (k: TokenKind) => Canonical.Canonical(k));
    CleanBody(ts);
    if CanBeWritten(e) {
      TokensSurvive(ts);
    }
  }
}
