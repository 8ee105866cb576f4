// What the CQL lexer reads off the front of a text (crates/cgx-cql/src/token.rs). Every decision
// looks forward from the current position only, so it is a function of the remaining text.
module Lexing {
  import opened Prelude
  import opened Token
  import V = Values

  // ---- characters ----

  predicate Digit(c: char) {
    '0' <= c <= '9'
  }

  predicate IdentStart(c: char) {
    'a' <= c <= 'z' || 'A' <= c <= 'Z' || c == '_'
  }

  predicate IdentContinue(c: char) {
    IdentStart(c) || Digit(c)
  }

  predicate Blank(c: char) {
    c == ' ' || c == '\t' || c == '\r' || c == '\n'
  }

  // The longest prefix of characters with `p`.
  function Run(s: string, p: char -> bool): (n: nat)
    ensures n <= |s| && (forall i | 0 <= i < n :: p(s[i])) && (n < |s| ==> !p(s[n]))
  {
    if s == [] || !p(s[0]) then 0
    else
      var n := 1 + Run(s[1..], p);
      assert forall i | 0 < i < n :: s[i] == s[1..][i - 1];
      n
  }

  // ---- trivia ----

  predicate CommentStart(s: string) {
    |s| > 1 && s[0] == '/' && s[1] == '/'
  }

  function Comment(s: string): (n: nat)
    ensures n <= |s|
  {
    Run(s, (c: char) => c != '\n')
  }

  // Blanks and line comments up to the next token.
  function Trivia(s: string): (n: nat)
    ensures n <= |s|
    decreases |s|
  {
    if s == [] then 0
    else if Blank(s[0]) then 1 + Trivia(s[1..])
    else if CommentStart(s) then Comment(s) + Trivia(s[Comment(s)..])
    else 0
  }

  // ---- one token ----

  datatype Lexeme = Lexeme(kind: TokenKind, len: nat)

  type Lexed = Result<Lexeme, ErrorKind>

  function Upper(s: string): (r: string)
    ensures |r| == |s|
  {
    if s == [] then [] else [if 'a' <= s[0] <= 'z' then (s[0] - 'a') + 'A' else s[0]] + Upper(s[1..])
  }

  function Keyword(upper: string): Option<TokenKind> {
    if upper == "MATCH" then Some(KwMatch)
    else if upper == "WHERE" then Some(KwWhere)
    else if upper == "RETURN" then Some(KwReturn)
    else if upper == "WITH" then Some(KwWith)
    else if upper == "CALL" then Some(KwCall)
    else if upper == "YIELD" then Some(KwYield)
    else if upper == "ORDER" then Some(KwOrder)
    else if upper == "BY" then Some(KwBy)
    else if upper == "AS" then Some(KwAs)
    else if upper == "DISTINCT" then Some(KwDistinct)
    else if upper == "LIMIT" then Some(KwLimit)
    else if upper == "ASC" then Some(KwAsc)
    else if upper == "DESC" then Some(KwDesc)
    else if upper == "AND" then Some(KwAnd)
    else if upper == "OR" then Some(KwOr)
    else if upper == "NOT" then Some(KwNot)
    else if upper == "IN" then Some(KwIn)
    else if upper == "NONE" then Some(KwNone)
    else if upper == "ANY" then Some(KwAny)
    else if upper == "ALL" then Some(KwAll)
    else if upper == "TRUE" then Some(KwTrue)
    else if upper == "FALSE" then Some(KwFalse)
    else if upper == "NULL" then Some(KwNull)
    else None
  }

  function WordKind(text: string): TokenKind {
    var k := Keyword(Upper(text));
    if k.Some? then k.value else Ident(text)
  }

  function Word(s: string): Lexeme
    requires s != []
  {
    var n := 1 + Run(s[1..], IdentContinue);
    Lexeme(WordKind(s[..n]), n)
  }

  // ---- numbers ----

  function DigitAt(s: string, i: nat): bool {
    i < |s| && Digit(s[i])
  }

  // Where the fraction of a number whose integer part ends at `n` ends; `n` itself without one.
  function FractionEnd(s: string, n: nat): (r: nat)
    requires n <= |s|
    ensures n <= r <= |s|
  {
    if n < |s| && s[n] == '.' && DigitAt(s, n + 1) then n + 1 + Run(s[n + 1..], Digit) else n
  }

  // Where the digits of an exponent that starts at `n` begin.
  function ExponentDigits(s: string, n: nat): (r: nat)
    requires n < |s|
    ensures n < r <= |s|
  {
    if n + 1 < |s| && (s[n + 1] == '+' || s[n + 1] == '-') then n + 2 else n + 1
  }

  function ExponentEnd(s: string, n: nat): (r: nat)
    requires n <= |s|
    ensures n <= r <= |s|
  {
    if n < |s| && (s[n] == 'e' || s[n] == 'E') && DigitAt(s, ExponentDigits(s, n)) then
      ExponentDigits(s, n) + Run(s[ExponentDigits(s, n)..], Digit)
    else n
  }

  function NumberEnd(s: string): (r: nat)
    ensures r <= |s|
  {
    ExponentEnd(s, FractionEnd(s, Run(s, Digit)))
  }

  predicate IsFloat(s: string) {
    NumberEnd(s) > Run(s, Digit)
  }

  // The value of a run of digits.
  function Natural(s: string): nat {
    if s == [] then 0
    else Natural(s[..|s| - 1]) * 10 + if Digit(s[|s| - 1]) then (s[|s| - 1] - '0') as int else 0
  }

  // The exact decimal value of a float literal.
  function Decimal(text: string): real {
    var n := Run(text, Digit);
    var m := FractionEnd(text, n);
    var fraction := if m > n then text[n + 1..m] else [];
    var mantissa := Natural(text[..n] + fraction) as real / Positive(|fraction|);
    if m == |text| then mantissa
    else
      var e := ExponentDigits(text, m);
      var power := Positive(Natural(text[e..]));
      if e == m + 2 && text[m + 1] == '-' then mantissa / power else mantissa * power
  }

  function Positive(k: nat): (r: real)
    ensures r > 0.0
  {
    if k == 0 then 1.0 else 10.0 * Positive(k - 1)
  }

  const I64_MAX: nat := 0x7FFF_FFFF_FFFF_FFFF

  function NumberKind(text: string, isFloat: bool): Result<TokenKind, ErrorKind> {
    if isFloat then Success(Float(V.Finite(Decimal(text))))
    else if Natural(text) <= I64_MAX then Success(Int(Natural(text)))
    else Failure(Parse)
  }

  function Number(s: string): Lexed {
    var end := NumberEnd(s);
    match NumberKind(s[..end], IsFloat(s))
    case Failure(e) => Failure(e)
    case Success(k) => Success(Lexeme(k, end))
  }

  // ---- strings ----

  function Unescape(c: char): Option<char> {
    if c == '"' || c == '\\' || c == '/' then Some(c)
    else if c == 'n' then Some('\n')
    else if c == 't' then Some('\t')
    else if c == 'r' then Some('\r')
    else None
  }

  datatype Scan = Scanned(value: string, len: nat) | BadString

  function Push(c: char, width: nat, r: Scan): Scan {
    match r
    case BadString => BadString
    case Scanned(v, n) => Scanned([c] + v, n + width)
  }

  // The rest of a string literal, through its closing quote.
  function ScanString(s: string): (r: Scan)
    ensures r.Scanned? ==> 0 < r.len <= |s|
  {
    if s == [] then BadString
    else if s[0] == '"' then Scanned([], 1)
    else if s[0] != '\\' then Push(s[0], 1, ScanString(s[1..]))
    else if |s| == 1 || Unescape(s[1]).None? then BadString
    else Push(Unescape(s[1]).value, 2, ScanString(s[2..]))
  }

  // ---- punctuation ----

  function TwoChar(a: char, b: char): Option<TokenKind> {
    if a == '<' && b == '>' then Some(Ne)
    else if a == '<' && b == '=' then Some(Le)
    else if a == '<' && b == '-' then Some(ArrowL)
    else if a == '>' && b == '=' then Some(Ge)
    else if a == '-' && b == '>' then Some(ArrowR)
    else if a == '.' && b == '.' then Some(DotDot)
    else None
  }

  function OneChar(a: char): Option<TokenKind> {
    match a
    case '(' => Some(LParen)
    case ')' => Some(RParen)
    case '[' => Some(LBracket)
    case ']' => Some(RBracket)
    case '{' => Some(LBrace)
    case '}' => Some(RBrace)
    case ':' => Some(Colon)
    case ',' => Some(Comma)
    case '.' => Some(Dot)
    case '|' => Some(Pipe)
    case '@' => Some(At)
    case '*' => Some(Star)
    case '=' => Some(Eq)
    case '<' => Some(Lt)
    case '>' => Some(Gt)
    case '-' => Some(Dash)
    case _ => None
  }

  function Punctuation(s: string): Lexed
    requires s != []
  {
    if |s| > 1 && TwoChar(s[0], s[1]).Some? then Success(Lexeme(TwoChar(s[0], s[1]).value, 2))
    else if OneChar(s[0]).Some? then Success(Lexeme(OneChar(s[0]).value, 1))
    else if s[0] == '$' || s[0] == '+' || s[0] == '/' || s[0] == '%' then Failure(Plan)
    else Failure(Parse)
  }

  // The token a text opens with.
  function LexOne(s: string): (r: Lexed)
    ensures r.Success? ==> 0 < r.value.len <= |s|
  {
    if s == [] then Failure(Parse)
    else if IdentStart(s[0]) then Success(Word(s))
    else if Digit(s[0]) then Number(s)
    else if s[0] == '"' then
      match ScanString(s[1..])
      case BadString => Failure(Parse)
      case Scanned(v, n) => Success(Lexeme(Str(v), n + 1))
    else Punctuation(s)
  }

  // ---- a whole text ----

  datatype Tok = Tok(kind: TokenKind, start: nat, end: nat)

  type TokensOrError = Result<seq<Tok>, ErrorKind>

  function AfterToken(first: Tok, rest: TokensOrError): TokensOrError {
    match rest
    case Failure(e) => Failure(e)
    case Success(ts) => Success([first] + ts)
  }

  function NoToken(s: string): Lexed {
    Failure(Parse)
  }

  // A way of reading one token: never an empty one.
  type LexFn = f: string -> Lexed | forall s :: f(s).Success? ==> 0 < f(s).value.len <= |s| witness NoToken

  // The tokens of `src` from `pos` on, and from the start of a token on.
  function TokensFrom(src: string, pos: nat, lex: LexFn): TokensOrError
    requires pos <= |src|
    decreases |src| - pos, 1
  {
    TokensAt(src, pos + Trivia(src[pos..]), lex)
  }

  function TokensAt(src: string, start: nat, lex: LexFn): TokensOrError
    requires start <= |src|
    decreases |src| - start, 0
  {
    if start >= |src| then Success([Tok(Eof, start, start)])
    else
      match lex(src[start..])
      case Failure(e) => Failure(e)
      case Success(l) => AfterToken(Tok(l.kind, start, start + l.len), TokensFrom(src, start + l.len, lex))
  }
}
