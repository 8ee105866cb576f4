// Attributes shared by the graph components (crates/cgx-core).
module Graph {
  type NodeId = nat

  datatype SymbolKind =
    | Function | Method | Type | Field | Variable | Module | Constant | Macro | Lambda | Entrypoint

  datatype NodeRecord = NodeRecord(kind: SymbolKind, fqn: string, file: string, line: nat)

  datatype Condition = Always | Conditional | Loop | Exception | Panic

  datatype Confidence = Possible | Probable | Certain

  // Ascending certainty.
  function Rank(c: Confidence): nat {
    match c
    case Possible => 0
    case Probable => 1
    case Certain => 2
  }
}
