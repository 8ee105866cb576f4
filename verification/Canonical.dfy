// Canonical token texts, joined by single spaces, lex back to the tokens they spell
// (crates/cgx-cql/src/token.rs; crates/cgx-cql/src/parser.rs, token_text).
module Canonical {
  import opened Prelude
  import opened Token
  import opened Lexing

  // ---- canonical texts ----

  function FixedText(k: TokenKind): string {
    match k
    case KwMatch => "MATCH"
    case KwWhere => "WHERE"
    case KwReturn => "RETURN"
    case KwWith => "WITH"
    case KwCall => "CALL"
    case KwYield => "YIELD"
    case KwOrder => "ORDER"
    case KwBy => "BY"
    case KwAs => "AS"
    case KwDistinct => "DISTINCT"
    case KwLimit => "LIMIT"
    case KwAsc => "ASC"
    case KwDesc => "DESC"
    case KwAnd => "AND"
    case KwOr => "OR"
    case KwNot => "NOT"
    case KwIn => "IN"
    case KwNone => "NONE"
    case KwAny => "ANY"
    case KwAll => "ALL"
    case KwTrue => "true"
    case KwFalse => "false"
    case KwNull => "null"
    case LParen => "("
    case RParen => ")"
    case LBracket => "["
    case RBracket => "]"
    case LBrace => "{"
    case RBrace => "}"
    case Colon => ":"
    case Comma => ","
    case Dot => "."
    case Pipe => "|"
    case At => "@"
    case Star => "*"
    case DotDot => ".."
    case Eq => "="
    case Ne => "<>"
    case Lt => "<"
    case Le => "<="
    case Gt => ">"
    case Ge => ">="
    case Dash => "-"
    case ArrowR => "->"
    case ArrowL => "<-"
    case _ => ""
  }

  function DecimalText(n: nat): (s: string)
    ensures s != [] && Digit(s[0])
  {
    if n < 10 then ['0' + n as char] else DecimalText(n / 10) + ['0' + (n % 10) as char]
  }

  function EscapeOne(c: char): string {
    match c
    case '"' => "\\\""
    case '\\' => "\\\\"
    case '\n' => "\\n"
    case '\t' => "\\t"
    case '\r' => "\\r"
    case _ => [c]
  }

  function Escaped(s: string): string {
    if s == [] then [] else EscapeOne(s[0]) + Escaped(s[1..])
  }

  function Text(k: TokenKind): string {
    match k
    case Ident(name) => name
    case Int(n) => if n >= 0 then DecimalText(n) else ""
    case Str(text) => "\"" + Escaped(text) + "\""
    case _ => FixedText(k)
  }

  predicate IsWord(s: string) {
    s != [] && IdentStart(s[0]) && forall i | 0 <= i < |s| :: IdentContinue(s[i])
  }

  predicate Canonical(k: TokenKind) {
    match k
    case Ident(name) => IsWord(name) && Keyword(Upper(name)).None?
    case Int(n) => 0 <= n <= I64_MAX
    case Float(_) => false
    case Eof => false
    case _ => true
  }

  // ---- one token before a blank or the end ----

  predicate Ends(tail: string) {
    tail == [] || tail[0] == ' '
  }

  lemma {:induction false} RunOver(s: string, tail: string, p: char -> bool)
    requires (forall i | 0 <= i < |s| :: p(s[i])) && Ends(tail) && !p(' ')
    ensures Run(s + tail, p) == |s|
    decreases |s|
  {
    if s == [] {
      assert s + tail == tail;
    } else {
      RunOver(s[1..], tail, p);
      assert (s + tail)[1..] == s[1..] + tail;
    }
  }

  lemma WordText(s: string, tail: string)
    requires IsWord(s) && Ends(tail)
    ensures LexOne(s + tail) == Success(Lexeme(WordKind(s), |s|))
  {
    RunOver(s[1..], tail, IdentContinue);
    assert (s + tail)[1..] == s[1..] + tail;
    assert (s + tail)[..|s|] == s;
  }

  lemma {:induction false} UpperIsItself(s: string)
    requires forall i | 0 <= i < |s| :: !('a' <= s[i] <= 'z')
    ensures Upper(s) == s
    decreases |s|
  {
    if s != [] {
      UpperIsItself(s[1..]);
      assert s == [s[0]] + s[1..];
    }
  }

  lemma UpperTrue()
    ensures Upper("true") == "TRUE"
  {
    assert Upper([]) == [];
    assert "true"[1..] == "rue" && "rue"[1..] == "ue" && "ue"[1..] == "e" && "e"[1..] == [];
    assert Upper("e") == "E" && Upper("ue") == "UE" && Upper("rue") == "RUE";
  }

  lemma UpperFalse()
    ensures Upper("false") == "FALSE"
  {
    assert "false"[1..] == "alse" && "alse"[1..] == "lse" && "lse"[1..] == "se" && "se"[1..] == "e" && "e"[1..] == [];
    assert Upper("e") == "E" && Upper("se") == "SE" && Upper("lse") == "LSE" && Upper("alse") == "ALSE";
  }

  lemma UpperNull()
    ensures Upper("null") == "NULL"
  {
    assert "null"[1..] == "ull" && "ull"[1..] == "ll" && "ll"[1..] == "l" && "l"[1..] == [];
    assert Upper("l") == "L" && Upper("ll") == "LL" && Upper("ull") == "ULL";
  }

  predicate IsKeyword(k: TokenKind) {
    || k.KwMatch? || k.KwWhere? || k.KwReturn? || k.KwWith? || k.KwCall? || k.KwYield? || k.KwOrder? || k.KwBy?
    || k.KwAs? || k.KwDistinct? || k.KwLimit? || k.KwAsc? || k.KwDesc? || k.KwAnd? || k.KwOr? || k.KwNot? || k.KwIn?
    || k.KwNone? || k.KwAny? || k.KwAll? || k.KwTrue? || k.KwFalse? || k.KwNull?
  }

  lemma ReadingKeywords(k: TokenKind)
    requires k.KwMatch? || k.KwWhere? || k.KwReturn? || k.KwWith?
    ensures IsWord(FixedText(k)) && WordKind(FixedText(k)) == k
  {
    UpperIsItself(FixedText(k));
  }

  lemma ClauseKeywords(k: TokenKind)
    requires k.KwCall? || k.KwYield? || k.KwOrder? || k.KwBy?
    ensures IsWord(FixedText(k)) && WordKind(FixedText(k)) == k
  {
    UpperIsItself(FixedText(k));
  }

  lemma ModifierKeywords(k: TokenKind)
    requires k.KwAs? || k.KwDistinct? || k.KwLimit? || k.KwAsc?
    ensures IsWord(FixedText(k)) && WordKind(FixedText(k)) == k
  {
    UpperIsItself(FixedText(k));
  }

  lemma OperatorKeywords(k: TokenKind)
    requires k.KwDesc? || k.KwAnd? || k.KwOr?
    ensures IsWord(FixedText(k)) && WordKind(FixedText(k)) == k
  {
    UpperIsItself(FixedText(k));
  }

  lemma PredicateKeywords(k: TokenKind)
    requires k.KwNot? || k.KwIn? || k.KwNone? || k.KwAny? || k.KwAll?
    ensures IsWord(FixedText(k)) && WordKind(FixedText(k)) == k
  {
    UpperIsItself(FixedText(k));
  }

  lemma LiteralNames()
    ensures Keyword("TRUE") == Some(KwTrue) && Keyword("FALSE") == Some(KwFalse) && Keyword("NULL") == Some(KwNull)
  {
  }

  lemma LiteralKeywords(k: TokenKind)
    requires k.KwTrue? || k.KwFalse? || k.KwNull?
    ensures IsWord(FixedText(k)) && WordKind(FixedText(k)) == k
  {
    LiteralNames();
    if k.KwTrue? {
      UpperTrue();
    } else if k.KwFalse? {
      UpperFalse();
    } else {
      UpperNull();
    }
  }

  lemma KeywordText(k: TokenKind)
    requires IsKeyword(k)
    ensures IsWord(FixedText(k)) && WordKind(FixedText(k)) == k
  {
    if k.KwTrue? || k.KwFalse? || k.KwNull? {
      LiteralKeywords(k);
    } else if k.KwNot? || k.KwIn? || k.KwNone? || k.KwAny? || k.KwAll? {
      PredicateKeywords(k);
    } else if k.KwDesc? || k.KwAnd? || k.KwOr? {
      OperatorKeywords(k);
    } else if k.KwAs? || k.KwDistinct? || k.KwLimit? || k.KwAsc? {
      ModifierKeywords(k);
    } else if k.KwMatch? || k.KwWhere? || k.KwReturn? || k.KwWith? {
      ReadingKeywords(k);
    } else {
      ClauseKeywords(k);
    }
  }

  lemma PunctuationText(k: TokenKind, tail: string)
    requires Canonical(k) && !IsKeyword(k) && !k.Ident? && !k.Int? && !k.Str? && Ends(tail)
    ensures LexOne(FixedText(k) + tail) == Success(Lexeme(k, |FixedText(k)|))
  {
    var s := FixedText(k) + tail;
    assert s[0] == FixedText(k)[0];
  }

  lemma {:induction false} DecimalDigits(n: nat)
    ensures forall i | 0 <= i < |DecimalText(n)| :: Digit(DecimalText(n)[i])
    ensures Natural(DecimalText(n)) == n
    decreases n
  {
    var s := DecimalText(n);
    if n < 10 {
      assert s[..0] == [];
      DigitValue(n);
    } else {
      DecimalDigits(n / 10);
      DigitValue(n % 10);
      assert s[..|s| - 1] == DecimalText(n / 10);
    }
  }

  lemma DigitValue(d: nat)
    requires d < 10
    ensures Digit('0' + d as char) && (('0' + d as char) - '0') as int == d
  {
  }

  lemma IntText(n: nat, tail: string)
    requires n <= I64_MAX && Ends(tail)
    ensures LexOne(DecimalText(n) + tail) == Success(Lexeme(Int(n), |DecimalText(n)|))
  {
    var d := DecimalText(n);
    var s := d + tail;
    DecimalDigits(n);
    RunOver(d, tail, Digit);
    assert s[0] == d[0] && Digit(s[0]) && !IdentStart(s[0]);
    assert NumberEnd(s) == |d| && s[..|d|] == d;
    assert LexOne(s) == Number(s);
  }

  lemma ScanOne(c: char, rest: string)
    ensures ScanString(EscapeOne(c) + rest) == Push(c, |EscapeOne(c)|, ScanString(rest))
  {
    var e := EscapeOne(c);
    if |e| == 1 {
      ScanPlain(c, rest);
    } else {
      ScanEscape(e[1], rest);
      assert e == ['\\', e[1]];
    }
  }

  lemma ScanPlain(c: char, rest: string)
    requires c != '"' && c != '\\'
    ensures ScanString([c] + rest) == Push(c, 1, ScanString(rest))
  {
    assert ([c] + rest)[1..] == rest;
  }

  lemma ScanEscape(e: char, rest: string)
    requires Unescape(e).Some?
    ensures ScanString(['\\', e] + rest) == Push(Unescape(e).value, 2, ScanString(rest))
  {
    assert (['\\', e] + rest)[2..] == rest;
  }

  lemma {:induction false} StringText(v: string, tail: string)
    ensures ScanString(Escaped(v) + "\"" + tail) == Scanned(v, |Escaped(v)| + 1)
    decreases |v|
  {
    if v == [] {
      assert Escaped(v) + "\"" + tail == "\"" + tail;
    } else {
      var rest := Escaped(v[1..]) + "\"" + tail;
      StringText(v[1..], tail);
      ScanOne(v[0], rest);
      assert Escaped(v) + "\"" + tail == EscapeOne(v[0]) + rest;
      assert v == [v[0]] + v[1..];
    }
  }

  lemma StrText(v: string, tail: string)
    ensures LexOne(Text(Str(v)) + tail) == Success(Lexeme(Str(v), |Text(Str(v))|))
  {
    var s := Text(Str(v)) + tail;
    StringText(v, tail);
    assert s == "\"" + (Escaped(v) + "\"" + tail);
    LexQuoted(Escaped(v) + "\"" + tail, v, |Escaped(v)| + 1);
  }

  lemma LexQuoted(s: string, v: string, n: nat)
    requires ScanString(s) == Scanned(v, n)
    ensures LexOne("\"" + s) == Success(Lexeme(Str(v), n + 1))
  {
    assert ("\"" + s)[1..] == s && ("\"" + s)[0] == '"';
  }

  lemma KeywordLexes(k: TokenKind, tail: string)
    requires IsKeyword(k) && Ends(tail)
    ensures Text(k) != [] && LexOne(Text(k) + tail) == Success(Lexeme(k, |Text(k)|))
  {
    KeywordText(k);
    WordText(FixedText(k), tail);
  }

  // A canonical text followed by a blank, or by nothing, lexes to its token.
  lemma TextLexes(k: TokenKind, tail: string)
    requires Canonical(k) && Ends(tail)
    ensures Text(k) != [] && LexOne(Text(k) + tail) == Success(Lexeme(k, |Text(k)|))
  {
    if k.Ident? {
      WordText(k.name, tail);
    } else if k.Int? {
      IntText(k.n, tail);
    } else if k.Str? {
      StrText(k.text, tail);
    } else if IsKeyword(k) {
      KeywordLexes(k, tail);
    } else {
      PunctuationText(k, tail);
    }
  }

  // ---- a whole rendering ----

  // Texts joined by single spaces.
  function Join(texts: seq<string>): string {
    if texts == [] then []
    else if |texts| == 1 then texts[0]
    else texts[0] + (" " + Join(texts[1..]))
  }

  predicate CleanStart(s: string) {
    s != [] && !Blank(s[0]) && s[0] != '/'
  }

  // `lex` reads `text` as `k` wherever a blank or the end follows.
  ghost predicate Reads(lex: LexFn, text: string, k: TokenKind) {
    CleanStart(text) && forall tail | Ends(tail) :: lex(text + tail) == Success(Lexeme(k, |text|))
  }

  // Tokens of a text after `pos`, spans erased.
  function KindsFrom(src: string, pos: nat, lex: LexFn): Option<seq<TokenKind>>
    requires pos <= |src|
  {
    match TokensFrom(src, pos, lex)
    case Failure(_) => None
    case Success(ts) => Some(Kinds(ts))
  }

  function Kinds(ts: seq<Tok>): seq<TokenKind> {
    seq(|ts|, i requires 0 <= i < |ts| => ts[i].kind)
  }

  ghost predicate LexesTo(src: string, pos: nat, lex: LexFn, ks: seq<TokenKind>) {
    pos <= |src| && KindsFrom(src, pos, lex) == Some(ks)
  }

  lemma KindsMore(src: string, pos: nat, lex: LexFn, k: TokenKind, next: nat, rest: seq<TokenKind>)
    requires pos < next <= |src| && lex(src[pos..]) == Success(Lexeme(k, next - pos)) && Trivia(src[pos..]) == 0
    requires LexesTo(src, next, lex, rest)
    ensures LexesTo(src, pos, lex, [k] + rest)
  {
    var ts := TokensFrom(src, next, lex).value;
    assert TokensFrom(src, pos, lex) == TokensAt(src, pos, lex);
    assert TokensFrom(src, pos, lex) == Success([Tok(k, pos, next)] + ts);
    assert Kinds([Tok(k, pos, next)] + ts) == [k] + Kinds(ts);
  }

  lemma SkipBlank(src: string, pos: nat, lex: LexFn)
    requires pos < |src| && src[pos] == ' '
    ensures forall ks | LexesTo(src, pos + 1, lex, ks) :: LexesTo(src, pos, lex, ks)
  {
    assert src[pos..][1..] == src[pos + 1..];
    assert Trivia(src[pos..]) == 1 + Trivia(src[pos + 1..]);
    assert TokensFrom(src, pos, lex) == TokensFrom(src, pos + 1, lex);
  }

  lemma NothingLeft(src: string, lex: LexFn)
    ensures LexesTo(src, |src|, lex, [Eof])
  {
    assert src[|src|..] == [];
    assert TokensAt(src, |src|, lex) == Success([Tok(Eof, |src|, |src|)]);
    assert Kinds([Tok(Eof, |src|, |src|)]) == [Eof];
  }

  // A readable text at `pos`, with a blank or nothing after it.
  lemma ReadsHere(src: string, pos: nat, lex: LexFn, text: string, k: TokenKind, tail: string)
    requires pos <= |src| && src[pos..] == text + tail && Ends(tail) && Reads(lex, text, k)
    ensures var next := pos + |text|;
      && pos < next <= |src| && src[next..] == tail
      && lex(src[pos..]) == Success(Lexeme(k, next - pos)) && Trivia(src[pos..]) == 0
  {
    assert src[pos..][0] == text[0];
    assert src[pos..][|text|..] == tail;
  }

  ghost predicate AllRead(lex: LexFn, texts: seq<string>, ks: seq<TokenKind>) {
    |texts| == |ks| && forall i | 0 <= i < |ks| :: Reads(lex, texts[i], ks[i])
  }

  // From where the joined texts start, their tokens are read.
  lemma JoinUnfold(texts: seq<string>)
    requires texts != []
    ensures Join(texts) == texts[0] + if |texts| == 1 then "" else " " + Join(texts[1..])
  {
    assert texts[0] + "" == texts[0];
  }

  lemma {:induction false} JoinLexes(src: string, pos: nat, lex: LexFn, texts: seq<string>, ks: seq<TokenKind>)
    requires pos <= |src| && src[pos..] == Join(texts) && AllRead(lex, texts, ks)
    ensures LexesTo(src, pos, lex, ks + [Eof])
    decreases |ks|, 0
  {
    if ks == [] {
      NothingLeft(src, lex);
      assert ks + [Eof] == [Eof];
    } else {
      var text, k := texts[0], ks[0];
      var tail := if |ks| == 1 then "" else " " + Join(texts[1..]);
      var next := pos + |text|;
      JoinUnfold(texts);
      ReadsHere(src, pos, lex, text, k, tail);
      RestLexes(src, next, lex, texts[1..], ks[1..], tail);
      KindsMore(src, pos, lex, k, next, ks[1..] + [Eof]);
      assert ks + [Eof] == [k] + (ks[1..] + [Eof]);
    }
  }

  lemma {:induction false} RestLexes(src: string, pos: nat, lex: LexFn, texts: seq<string>, ks: seq<TokenKind>,
                                     tail: string)
    requires pos <= |src| && src[pos..] == tail == if ks == [] then "" else " " + Join(texts)
    requires AllRead(lex, texts, ks)
    ensures LexesTo(src, pos, lex, ks + [Eof])
    decreases |ks|, 1
  {
    if ks == [] {
      NothingLeft(src, lex);
      assert ks + [Eof] == [Eof];
    } else {
      assert src[pos] == src[pos..][0] == ' ';
      assert src[pos + 1..] == tail[1..] == Join(texts);
      JoinLexes(src, pos + 1, lex, texts, ks);
      SkipBlank(src, pos, lex);
    }
  }

  lemma TextStartsClean(k: TokenKind)
    requires Canonical(k)
    ensures CleanStart(Text(k))
  {
    if IsKeyword(k) {
      KeywordText(k);
      WordStartsClean(FixedText(k));
    } else if k.Ident? {
      WordStartsClean(k.name);
    } else if !k.Int? && !k.Str? {
      PunctuationStartsClean(k);
    }
  }

  lemma WordStartsClean(s: string)
    requires IsWord(s)
    ensures CleanStart(s)
  {
  }

  lemma PunctuationStartsClean(k: TokenKind)
    requires Canonical(k) && !IsKeyword(k) && !k.Ident? && !k.Int? && !k.Str?
    ensures CleanStart(FixedText(k))
  {
  }

  function Texts(ks: seq<TokenKind>): seq<string> {
    seq(|ks|, i requires 0 <= i < |ks| => Text(ks[i]))
  }

  lemma CanonicalReads(k: TokenKind)
    requires Canonical(k)
    ensures Reads(LexOne, Text(k), k)
  {
    TextStartsClean(k);
    forall tail | Ends(tail) ensures LexOne(Text(k) + tail) == Success(Lexeme(k, |Text(k)|)) {
      TextLexes(k, tail);
    }
  }

  // Space-joined canonical texts lex back to the kinds they spell.
  lemma CanonicalRoundTrip(ks: seq<TokenKind>)
    requires forall i | 0 <= i < |ks| :: Canonical(ks[i])
    ensures LexesTo(Join(Texts(ks)), 0, LexOne, ks + [Eof])
  {
    forall i | 0 <= i < |ks| ensures Reads(LexOne, Texts(ks)[i], ks[i]) {
      CanonicalReads(ks[i]);
    }
    var src := Join(Texts(ks));
    assert src[0..] == src;
    JoinLexes(src, 0, LexOne, Texts(ks), ks);
  }
}
