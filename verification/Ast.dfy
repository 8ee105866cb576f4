// The plain-data AST the parser produces (crates/cgx-cql/src/ast.rs), spans erased.
module Ast {
  import opened Prelude
  import Values

  type Value = Values.Value

  datatype Arrow = Forward | Backward

  datatype PropEntry = PropEntry(key: string, value: Value)

  datatype NodePat = NodePat(v: Option<string>, tag: Option<string>, props: seq<PropEntry>)

  datatype VarLen = VarLen(min: Option<nat>, max: Option<nat>)

  datatype RelPat = RelPat(
    v: Option<string>, direction: Arrow, types: seq<string>, varLen: Option<VarLen>, props: seq<PropEntry>)

  datatype Step = Step(rel: RelPat, node: NodePat)

  datatype PathPattern = PathPattern(pathVar: Option<string>, start: NodePat, steps: seq<Step>)

  datatype QuantifierKind = QNone | QAny | QAll

  datatype BinOp = OpEq | OpNe | OpLt | OpLe | OpGt | OpGe | OpIn | OpAnd | OpOr

  datatype Expr =
    | Literal(v: Value)
    | Property(head: string, segments: seq<string>)
    | FunctionCall(name: string, args: seq<Expr>)
    | ListComp(bound: string, list: Expr, filter: Option<Expr>, projection: Expr)
    | Quantifier(kind: QuantifierKind, bound: string, list: Expr, pred: Expr)
    | PatternPredicate(negated: bool, pattern: PathPattern)
    | Binary(op: BinOp, lhs: Expr, rhs: Expr)
    | Not(inner: Expr)
}
