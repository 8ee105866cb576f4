// The token classes of the CQL lexer (crates/cgx-cql/src/token.rs), spans erased.
module Token {
  import opened Values

  datatype TokenKind =
      // keywords
    | KwMatch | KwWhere | KwReturn | KwWith | KwCall | KwYield | KwOrder | KwBy | KwAs
    | KwDistinct | KwLimit | KwAsc | KwDesc | KwAnd | KwOr | KwNot | KwIn | KwNone | KwAny
    | KwAll | KwTrue | KwFalse | KwNull
      // operands
    | Ident(name: string)
    | Int(n: int)
    | Float(f: F64)
    | Str(text: string)
      // punctuation
    | LParen | RParen | LBracket | RBracket | LBrace | RBrace | Colon | Comma | Dot | Pipe | At
    | Star | DotDot
      // comparison and arrows
    | Eq | Ne | Lt | Le | Gt | Ge | Dash | ArrowR | ArrowL
    | Eof

  // `Parse` is a syntax error, `Plan` a construct that is recognised but deferred.
  datatype ErrorKind = Parse | Plan
}
