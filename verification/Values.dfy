// The CQL runtime value type (crates/cgx-cql/src/value.rs).
module Values {
  // An f64: its finite values stand for themselves as reals; the sign of zero is not kept,
  // since no operation of the model tells the two zeros apart.
  datatype F64 = NaN | Inf(negative: bool) | Finite(r: real)

  datatype Value =
    | Null
    | Bool(b: bool)
    | Int(n: int)
    | Float(f: F64)
    | Str(text: string)
    | List(items: seq<Value>)
    | Node(node: nat)
    | Edge(edge: nat)
    | Path(nodes: seq<nat>, edges: seq<nat>)
}
