// The lexer tiles its input, and each token's text lexes alone to that token
// (crates/cgx-cql/src/token.rs).
module Tiling {
  import opened Prelude
  import opened Token
  import opened Lexing

  lemma {:induction false} RunPrefix(s: string, n: nat, p: char -> bool)
    requires Run(s, p) <= n <= |s|
    ensures Run(s[..n], p) == Run(s, p)
    decreases |s|
  {
    if n > 0 && p(s[0]) {
      RunPrefix(s[1..], n - 1, p);
      assert s[..n][1..] == s[1..][..n - 1];
    }
  }

  lemma {:induction false} TriviaAlone(s: string)
    ensures Trivia(s[..Trivia(s)]) == Trivia(s)
    decreases |s|
  {
    var n := Trivia(s);
    var t := s[..n];
    if s != [] && Blank(s[0]) {
      TriviaAlone(s[1..]);
      assert t[1..] == s[1..][..n - 1];
    } else if s != [] && CommentStart(s) {
      var c := Comment(s);
      TriviaAlone(s[c..]);
      RunPrefix(s, n, (x: char) => x != '\n');
      assert c >= 2 by {
        assert s[0] != '\n' && s[1] != '\n';
      }
      assert t[c..] == s[c..][..n - c];
    }
  }

  // `ts` are tokens of `src` from `pos` on: each non-empty, in order and apart, with only blanks and
  // comments between them, closed by one `Eof` at the end of the text.
  predicate Tiled(src: string, pos: nat, ts: seq<Tok>)
    decreases |ts|
  {
    && ts != [] && pos <= ts[0].start <= |src|
    && Trivia(src[pos..ts[0].start]) == ts[0].start - pos
    && if |ts| == 1 then ts[0] == Tok(Eof, |src|, |src|)
       else ts[0].kind != Eof && ts[0].start < ts[0].end <= |src| && Tiled(src, ts[0].end, ts[1..])
  }

  ghost predicate Lexes(src: string, pos: nat, lex: LexFn, ts: seq<Tok>) {
    pos <= |src| && TokensFrom(src, pos, lex) == Success(ts)
  }

  ghost predicate NeverEof(lex: LexFn) {
    forall s :: lex(s).Success? ==> lex(s).value.kind != Eof
  }

  // A successful lexing, one token off its front.
  lemma Unfold(src: string, pos: nat, lex: LexFn, ts: seq<Tok>) returns (start: nat, l: Lexeme, rest: seq<Tok>)
    requires Lexes(src, pos, lex, ts)
    ensures start == pos + Trivia(src[pos..])
    ensures start == |src| ==> ts == [Tok(Eof, start, start)]
    ensures start < |src| ==>
              && lex(src[start..]) == Success(l) && 0 < l.len <= |src| - start
              && Lexes(src, start + l.len, lex, rest)
              && ts == [Tok(l.kind, start, start + l.len)] + rest
    ensures start < |src| && NeverEof(lex) ==> l.kind != Eof
    ensures start <= |src|
  {
    start, l, rest := pos + Trivia(src[pos..]), Lexeme(Eof, 0), [];
    assert TokensFrom(src, pos, lex) == TokensAt(src, start, lex);
    if start < |src| {
      l := lex(src[start..]).value;
      rest := TokensFrom(src, start + l.len, lex).value;
    }
  }

  // The same, with the token put together.
  lemma FrontToken(src: string, pos: nat, lex: LexFn, ts: seq<Tok>) returns (t: Tok, rest: seq<Tok>)
    requires Lexes(src, pos, lex, ts) && NeverEof(lex) && pos + Trivia(src[pos..]) < |src|
    ensures t.start == pos + Trivia(src[pos..]) && t.kind != Eof && t.start < t.end <= |src|
    ensures Lexes(src, t.end, lex, rest) && ts == [t] + rest
  {
    var start, l, more := Unfold(src, pos, lex, ts);
    t, rest := Tok(l.kind, start, start + l.len), more;
  }

  lemma LastToken(src: string, pos: nat, lex: LexFn, ts: seq<Tok>)
    requires Lexes(src, pos, lex, ts) && pos + Trivia(src[pos..]) >= |src|
    ensures Tiled(src, pos, ts)
  {
    var start, l, rest := Unfold(src, pos, lex, ts);
    TiledEnd(src, pos);
  }

  lemma {:induction false} TokensTile(src: string, pos: nat, lex: LexFn, ts: seq<Tok>)
    requires Lexes(src, pos, lex, ts) && NeverEof(lex)
    ensures Tiled(src, pos, ts)
    decreases |src| - pos
  {
    if pos + Trivia(src[pos..]) < |src| {
      var t, rest := FrontToken(src, pos, lex, ts);
      TokensTile(src, t.end, lex, rest);
      TiledMore(src, pos, t, rest, ts);
    } else {
      LastToken(src, pos, lex, ts);
    }
  }

  lemma Gap(src: string, pos: nat, start: nat)
    requires pos <= |src| && start == pos + Trivia(src[pos..])
    ensures start <= |src| && Trivia(src[pos..start]) == start - pos
  {
    TriviaAlone(src[pos..]);
    assert src[pos..][..start - pos] == src[pos..start];
  }

  lemma TiledEnd(src: string, pos: nat)
    requires pos <= |src| && pos + Trivia(src[pos..]) == |src|
    ensures Tiled(src, pos, [Tok(Eof, |src|, |src|)])
  {
    Gap(src, pos, |src|);
  }

  lemma TiledMore(src: string, pos: nat, t: Tok, rest: seq<Tok>, ts: seq<Tok>)
    requires pos <= |src| && t.start == pos + Trivia(src[pos..])
    requires t.kind != Eof && t.start < t.end <= |src| && Tiled(src, t.end, rest)
    requires ts == [t] + rest
    ensures Tiled(src, pos, ts)
  {
    Gap(src, pos, t.start);
    assert ts[1..] == rest;
  }

  // ---- a token's text alone ----

  lemma WordAlone(s: string)
    requires s != []
    ensures Word(s[..Word(s).len]) == Word(s)
  {
    var n := Word(s).len;
    RunPrefix(s[1..], n - 1, IdentContinue);
    assert s[..n][1..] == s[1..][..n - 1] && s[..n][..n] == s[..n];
  }

  lemma FractionPrefix(s: string, n: nat, end: nat)
    requires n < |s| && s[n] == '.' && DigitAt(s, n + 1) && n + 1 + Run(s[n + 1..], Digit) <= end <= |s|
    ensures FractionEnd(s[..end], n) == FractionEnd(s, n)
  {
    var t := s[..end];
    RunPrefix(s[n + 1..], end - n - 1, Digit);
    assert t[n + 1..] == s[n + 1..][..end - n - 1];
    assert Run(s[n + 1..], Digit) > 0;
    assert t[n] == '.' && DigitAt(t, n + 1);
  }

  lemma FractionAlone(s: string, n: nat, m: nat, end: nat)
    requires n <= |s| && m == FractionEnd(s, n) && end == ExponentEnd(s, m)
    ensures FractionEnd(s[..end], n) == m
  {
    if m > n {
      FractionPrefix(s, n, end);
    }
  }

  lemma ExponentAlone(s: string, m: nat, end: nat)
    requires m <= |s| && end == ExponentEnd(s, m)
    ensures ExponentEnd(s[..end], m) == end
  {
    if end > m {
      var e := ExponentDigits(s, m);
      RunPrefix(s[e..], end - e, Digit);
      assert Run(s[e..], Digit) > 0;
      assert s[..end][e..] == s[e..][..end - e];
      assert ExponentDigits(s[..end], m) == e;
    }
  }

  lemma NumberAlone(s: string)
    requires s != []
    ensures NumberEnd(s[..NumberEnd(s)]) == NumberEnd(s) && IsFloat(s[..NumberEnd(s)]) == IsFloat(s)
  {
    var n := Run(s, Digit);
    var m := FractionEnd(s, n);
    var end := ExponentEnd(s, m);
    RunPrefix(s, end, Digit);
    FractionAlone(s, n, m, end);
    ExponentAlone(s, m, end);
  }

  lemma {:induction false} StringAlone(s: string)
    requires ScanString(s).Scanned?
    ensures ScanString(s[..ScanString(s).len]) == ScanString(s)
    decreases |s|
  {
    var n := ScanString(s).len;
    var t := s[..n];
    if s[0] == '"' {
    } else if s[0] != '\\' {
      StringAlone(s[1..]);
      assert t[1..] == s[1..][..n - 1];
    } else {
      StringAlone(s[2..]);
      assert t[2..] == s[2..][..n - 2];
    }
  }

  lemma TextAlone(s: string)
    requires LexOne(s).Success?
    ensures LexOne(s[..LexOne(s).value.len]) == LexOne(s)
  {
    var n := LexOne(s).value.len;
    var t := s[..n];
    if IdentStart(s[0]) {
      WordAlone(s);
    } else if Digit(s[0]) {
      NumberAlone(s);
      assert t[..n] == t;
    } else if s[0] == '"' {
      StringAlone(s[1..]);
      assert t[1..] == s[1..][..n - 1];
    }
  }

  lemma NoTriviaFirst(s: string)
    requires LexOne(s).Success?
    ensures Trivia(s) == 0
  {
  }

  lemma LexesNothing(t: string, lex: LexFn)
    ensures Lexes(t, |t|, lex, [Tok(Eof, |t|, |t|)])
  {
    assert t[|t|..] == [];
    assert TokensAt(t, |t|, lex) == Success([Tok(Eof, |t|, |t|)]);
  }

  lemma LexesMore(src: string, pos: nat, lex: LexFn, l: Lexeme, rest: seq<Tok>)
    requires pos < |src| && Trivia(src[pos..]) == 0 && lex(src[pos..]) == Success(l)
    requires Lexes(src, pos + l.len, lex, rest)
    ensures Lexes(src, pos, lex, [Tok(l.kind, pos, pos + l.len)] + rest)
  {
    assert TokensFrom(src, pos, lex) == TokensAt(src, pos, lex);
  }

  lemma OneToken(t: string, lex: LexFn, kind: TokenKind)
    requires t != [] && Trivia(t) == 0 && lex(t) == Success(Lexeme(kind, |t|))
    ensures Lexes(t, 0, lex, [Tok(kind, 0, |t|), Tok(Eof, |t|, |t|)])
  {
    assert t[0..] == t;
    LexesNothing(t, lex);
    LexesMore(t, 0, lex, Lexeme(kind, |t|), [Tok(Eof, |t|, |t|)]);
    assert [Tok(kind, 0, |t|)] + [Tok(Eof, |t|, |t|)] == [Tok(kind, 0, |t|), Tok(Eof, |t|, |t|)];
  }

  // The text of a token is that token, and opens with no blank or comment.
  ghost predicate StandsAt(lex: LexFn, s: string)
    requires lex(s).Success?
  {
    Trivia(s[..lex(s).value.len]) == 0 && lex(s[..lex(s).value.len]) == lex(s)
  }

  ghost predicate StandsAlone(lex: LexFn) {
    forall s {:trigger StandsAt(lex, s)} | lex(s).Success? :: StandsAt(lex, s)
  }

  // Lexed by itself, the text of `t` is `t`.
  ghost predicate Alone(src: string, lex: LexFn, t: Tok) {
    && t.start < t.end <= |src|
    && var len := t.end - t.start;
       Lexes(src[t.start..t.end], 0, lex, [Tok(t.kind, 0, len), Tok(Eof, len, len)])
  }

  lemma FirstAlone(src: string, start: nat, lex: LexFn, l: Lexeme)
    requires start <= |src| && lex(src[start..]) == Success(l) && StandsAlone(lex)
    ensures Alone(src, lex, Tok(l.kind, start, start + l.len))
  {
    assert StandsAt(lex, src[start..]);
    assert src[start..start + l.len] == src[start..][..l.len];
    OneToken(src[start..][..l.len], lex, l.kind);
  }

  // Then every token of a text, lexed by itself, is itself.
  lemma {:induction false} TokensStandAlone(src: string, pos: nat, lex: LexFn, ts: seq<Tok>, i: nat)
    requires Lexes(src, pos, lex, ts) && StandsAlone(lex) && i < |ts| - 1
    ensures Alone(src, lex, ts[i])
    decreases i
  {
    var start, l, rest := Unfold(src, pos, lex, ts);
    if i == 0 {
      FirstAlone(src, start, lex, l);
    } else {
      TokensStandAlone(src, start + l.len, lex, rest, i - 1);
    }
  }

  lemma OneIsSound(s: string)
    requires LexOne(s).Success?
    ensures LexOne(s).value.kind != Eof
    ensures Trivia(s[..LexOne(s).value.len]) == 0 && LexOne(s[..LexOne(s).value.len]) == LexOne(s)
  {
    TextAlone(s);
    NoTriviaFirst(s[..LexOne(s).value.len]);
  }

  // The lexer's own way of reading a token has both properties.
  lemma LexOneIsSound()
    ensures NeverEof(LexOne) && StandsAlone(LexOne)
  {
    forall s | LexOne(s).Success? ensures LexOne(s).value.kind != Eof && StandsAt(LexOne, s) {
      OneIsSound(s);
    }
  }
}
