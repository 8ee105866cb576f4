// The lexer (crates/cgx-cql/src/token.rs, Lexer): one position advanced over
// the text.
module Lexer {
  import opened Prelude
  import opened Token
  import opened Lexing

  class Lexer {
    const src: string
    var pos: nat

    ghost predicate Valid()
      reads this
    {
      pos <= |src|
    }

    constructor (src: string)
      ensures Valid() && this.src == src && pos == 0
    {
      this.src, pos := src, 0;
    }

    method Tokenize() returns (r: TokensOrError)
      requires Valid()
      modifies this
      ensures r == TokensFrom(src, old(pos), LexOne)
    {
      r := ReadAll(LexOne);
    }

    // The main loop, over any specification that `NextToken` meets.
    method ReadAll(ghost lex: LexFn) returns (r: TokensOrError)
      requires Valid() && forall s :: ReadsAs(lex, s)
      modifies this
      ensures r == TokensFrom(src, old(pos), lex)
    {
      var out: seq<Tok> := [];
      ghost var all := TokensFrom(src, pos, lex);
      JoinedNone(all);
      while true
        invariant Valid() && Joined(out, TokensFrom(src, pos, lex)) == all
        decreases |src| - pos
      {
        ghost var before := pos;
        SkipTrivia();
        TriviaSkipped(src, before, pos, out, lex);
        if pos >= |src| {
          return Success(out + [Tok(Eof, pos, pos)]);
        }
        ghost var start := pos;
        var t := TakeToken(lex);
        TokenRead(src, start, out, lex, t, pos);
        if t.Failure? {
          return Failure(t.error);
        }
        out := out + [t.value];
      }
    }

    method TakeToken(ghost lex: LexFn) returns (r: Result<Tok, ErrorKind>)
      requires pos < |src| && forall s :: ReadsAs(lex, s)
      modifies this
      ensures Took(src, old(pos), lex, r, pos)
    {
      assert ReadsAs(lex, src[pos..]);
      r := NextToken();
    }

    method SkipTrivia()
      requires Valid()
      modifies this
      ensures Valid() && pos == old(pos) + Trivia(src[old(pos)..])
    {
      while pos < |src|
        invariant Valid() && pos + Trivia(src[pos..]) == old(pos) + Trivia(src[old(pos)..])
        decreases |src| - pos
      {
        var c := src[pos];
        OneTrivium(src, pos);
        if Blank(c) {
          pos := pos + 1;
        } else if c == '/' && pos + 1 < |src| && src[pos + 1] == '/' {
          pos := SkipRun(pos, (c: char) => c != '\n');
        } else {
          break;
        }
      }
    }

    // A loop that advances over characters of one class.
    method SkipRun(from: nat, p: char -> bool) returns (end: nat)
      requires from <= |src|
      ensures end == from + Run(src[from..], p)
    {
      end := from;
      while end < |src| && p(src[end])
        invariant from <= end <= |src| && end + Run(src[end..], p) == from + Run(src[from..], p)
      {
        assert src[end..][1..] == src[end + 1..];
        end := end + 1;
      }
    }

    method NextToken() returns (r: Result<Tok, ErrorKind>)
      requires pos < |src|
      modifies this
      ensures var l := LexOne(src[old(pos)..]);
              match l
              case Failure(e) => r == Failure(e)
              case Success(x) => Valid() && pos == old(pos) + x.len && r == Success(Tok(x.kind, old(pos), pos))
    {
      var start := pos;
      var c := src[start];
      if IdentStart(c) {
        var t := LexIdent(start);
        return Success(t);
      }
      if Digit(c) {
        r := LexNumber(start);
        return;
      }
      if c == '"' {
        r := LexString(start);
        return;
      }
      var two := if start + 1 < |src| then TwoChar(c, src[start + 1]) else None;
      if two.Some? {
        pos := start + 2;
        return Success(Tok(two.value, start, pos));
      }
      var one := OneChar(c);
      if one.Some? {
        pos := start + 1;
        return Success(Tok(one.value, start, pos));
      }
      return Failure(if c == '$' || c == '+' || c == '/' || c == '%' then Plan else Parse);
    }

    method LexIdent(start: nat) returns (t: Tok)
      requires start < |src|
      modifies this
      ensures var w := Word(src[start..]);
              Valid() && pos == start + w.len && t == Tok(w.kind, start, pos)
    {
      assert src[start..][1..] == src[start + 1..];
      pos := SkipRun(start + 1, IdentContinue);
      assert src[start..][..pos - start] == src[start..pos];
      t := Tok(WordKind(src[start..pos]), start, pos);
    }

    method LexNumber(start: nat) returns (r: Result<Tok, ErrorKind>)
      requires start < |src|
      modifies this
      ensures match Number(src[start..])
              case Failure(e) => r == Failure(e)
              case Success(x) => Valid() && pos == start + x.len && r == Success(Tok(x.kind, start, pos))
    {
      ghost var s := src[start..];
      var digits := SkipRun(start, Digit);
      ghost var n := Run(s, Digit);
      assert digits - start == n;
      var fraction := SkipFraction(start, digits, s, n);
      ghost var m := FractionEnd(s, n);
      var end := SkipExponent(start, fraction, s, m);
      NumberEnds(s);
      pos := end;
      var text := src[start..end];
      SliceFrom(src, start, end);
      var kind :- NumberKind(text, end > digits);
      return Success(Tok(kind, start, end));
    }

    // A fraction needs a digit after its point; `..` is the range operator.
    method SkipFraction(start: nat, from: nat, ghost s: string, ghost n: nat) returns (end: nat)
      requires from == start + n <= |src| && s == src[start..]
      ensures end == start + FractionEnd(s, n)
    {
      end := from;
      if end + 1 < |src| && src[end] == '.' && Digit(src[end + 1]) {
        assert s[n + 1..] == src[end + 1..];
        end := SkipRun(end + 1, Digit);
      }
    }

    method SkipExponent(start: nat, from: nat, ghost s: string, ghost m: nat) returns (end: nat)
      requires from == start + m <= |src| && s == src[start..]
      ensures end == start + ExponentEnd(s, m)
    {
      end := from;
      if end < |src| && (src[end] == 'e' || src[end] == 'E') {
        var e := end + 1;
        if e < |src| && (src[e] == '+' || src[e] == '-') {
          e := e + 1;
        }
        assert e - start == ExponentDigits(s, m);
        if e < |src| && Digit(src[e]) {
          assert s[e - start..] == src[e..];
          end := SkipRun(e, Digit);
        }
      }
    }

    method LexString(start: nat) returns (r: Result<Tok, ErrorKind>)
      requires start < |src|
      modifies this
      ensures match ScanString(src[start + 1..])
              case BadString => r == Failure(Parse)
              case Scanned(v, n) => Valid() && pos == start + n + 1 && r == Success(Tok(Str(v), start, pos))
    {
      var value := "";
      var i := start + 1;
      while i < |src|
        invariant start < i <= |src|
        invariant Read(value, i - start - 1, ScanString(src[i..])) == ScanString(src[start + 1..])
        decreases |src| - i
      {
        var c := src[i];
        assert src[i..][1..] == src[i + 1..];
        if c == '"' {
          assert value + [] == value;
          pos := i + 1;
          return Success(Tok(Str(value), start, pos));
        }
        if c == '\\' {
          if i + 1 >= |src| {
            return Failure(Parse);
          }
          var decoded := Unescape(src[i + 1]);
          if decoded.None? {
            return Failure(Parse);
          }
          assert src[i..][2..] == src[i + 2..];
          ReadMore(value, i - start - 1, decoded.value, 2, ScanString(src[i + 2..]));
          value := value + [decoded.value];
          i := i + 2;
        } else {
          ReadMore(value, i - start - 1, c, 1, ScanString(src[i + 1..]));
          value := value + [c];
          i := i + 1;
        }
      }
      return Failure(Parse);
    }
  }

  lemma SliceFrom(src: string, start: nat, end: nat)
    requires start <= end <= |src|
    ensures src[start..end] == src[start..][..end - start]
  {
  }

  lemma NumberEnds(s: string)
    ensures var n := Run(s, Digit); var m := FractionEnd(s, n); var end := ExponentEnd(s, m);
      Number(s) == AtEnd(NumberKind(s[..end], end > n), end)
  {
  }

  function AtEnd(kind: Result<TokenKind, ErrorKind>, end: nat): Lexed {
    match kind
    case Failure(e) => Failure(e)
    case Success(k) => Success(Lexeme(k, end))
  }

  // What has been read so far, put before what is still to come.
  function Read(value: string, width: nat, r: Scan): Scan {
    match r
    case BadString => BadString
    case Scanned(v, n) => Scanned(value + v, n + width)
  }

  lemma ReadMore(value: string, width: nat, c: char, w: nat, r: Scan)
    ensures Read(value, width, Push(c, w, r)) == Read(value + [c], width + w, r)
  {
    if r.Scanned? {
      assert value + ([c] + r.value) == value + [c] + r.value;
    }
  }

  function Joined(out: seq<Tok>, rest: TokensOrError): TokensOrError {
    match rest
    case Failure(e) => Failure(e)
    case Success(ts) => Success(out + ts)
  }

  lemma JoinedNone(rest: TokensOrError)
    ensures Joined([], rest) == rest
  {
    if rest.Success? {
      assert [] + rest.value == rest.value;
    }
  }

  ghost predicate ReadsAs(lex: LexFn, s: string) {
    lex(s) == LexOne(s)
  }

  // The first blank or comment ahead.
  lemma OneTrivium(src: string, pos: nat)
    requires pos < |src|
    ensures Blank(src[pos]) ==> Trivia(src[pos..]) == 1 + Trivia(src[pos + 1..])
    ensures !Blank(src[pos]) && src[pos] == '/' && pos + 1 < |src| && src[pos + 1] == '/' ==>
              var end := pos + Run(src[pos..], (c: char) => c != '\n');
              end <= |src| && Trivia(src[pos..]) == end - pos + Trivia(src[end..])
    ensures !Blank(src[pos]) && !(src[pos] == '/' && pos + 1 < |src| && src[pos + 1] == '/') ==> Trivia(src[pos..]) == 0
  {
    var s := src[pos..];
    assert s[0] == src[pos] && (pos + 1 < |src| ==> s[1] == src[pos + 1]);
    assert s[1..] == src[pos + 1..];
    assert s[Comment(s)..] == src[pos + Comment(s)..];
  }

  lemma TriviaSkipped(src: string, before: nat, pos: nat, out: seq<Tok>, lex: LexFn)
    requires before <= pos <= |src| && pos == before + Trivia(src[before..])
    ensures Joined(out, TokensFrom(src, before, lex))
         == if pos == |src| then Success(out + [Tok(Eof, pos, pos)]) else Joined(out, TokensAt(src, pos, lex))
  {
  }

  // `r` is what `lex` reads at `start`, and `end` is where it leaves off.
  ghost predicate Took(src: string, start: nat, lex: LexFn, r: Result<Tok, ErrorKind>, end: nat)
    requires start <= |src|
  {
    match lex(src[start..])
    case Failure(e) => r == Failure(e)
    case Success(l) => end == start + l.len && r == Success(Tok(l.kind, start, end))
  }

  lemma TokenRead(src: string, start: nat, out: seq<Tok>, lex: LexFn, t: Result<Tok, ErrorKind>, end: nat)
    requires start < |src| && Took(src, start, lex, t, end)
    ensures t.Failure? ==> Joined(out, TokensAt(src, start, lex)) == Failure(t.error)
    ensures t.Success? ==>
              && start < end <= |src|
              && Joined(out, TokensAt(src, start, lex)) == Joined(out + [t.value], TokensFrom(src, end, lex))
  {
    if t.Success? {
      JoinedSnoc(out, t.value, TokensFrom(src, end, lex));
    }
  }

  lemma JoinedSnoc(out: seq<Tok>, t: Tok, rest: TokensOrError)
    ensures Joined(out + [t], rest) == Joined(out, AfterToken(t, rest))
  {
    if rest.Success? {
      assert out + [t] + rest.value == out + ([t] + rest.value);
    }
  }
}
