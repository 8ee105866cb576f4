// What a written single-relationship pattern means, and that its lowered plan finds it
// (crates/cgx-cql/src/lower.rs, lower_single; crates/cgx-cql/src/eval.rs, expand_single_hop).
module Meaning {
  import opened Prelude
  import opened Graph
  import Values
  import opened Ast
  import opened CodeGraph
  import opened SymbolPatterns
  import opened Lowering
  import opened Evaluation

  // ---- nodes ----

  // A node pattern lists kinds with its label and its `kind` entries; any of them will do.
  predicate NamesKinds(node: NodePat) {
    node.tag.Some? || HasKindKey(node.props)
  }

  predicate HasKindKey(props: seq<PropEntry>) {
    exists i | 0 <= i < |props| :: props[i].key == "kind"
  }

  predicate HasKind(props: seq<PropEntry>, k: SymbolKind) {
    exists i | 0 <= i < |props| :: KindEntry(props[i], k)
  }

  predicate KindEntry(e: PropEntry, k: SymbolKind) {
    e.key == "kind" && e.value.Str? && SymbolKindOf(e.value.text) == Success(k)
  }

  predicate ListsKind(node: NodePat, k: SymbolKind) {
    (node.tag.Some? && SymbolKindOf(node.tag.value) == Success(k)) || HasKind(node.props, k)
  }

  predicate EntryHolds(e: PropEntry, n: NodeRecord) {
    if e.key == "name" || e.key == "fqn" then e.value.Str? && MatchesFqn(NamePattern(e.value.text), n.fqn)
    else if e.key == "file" then ValuesEqual(Values.Str(n.file), e.value)
    else e.key == "line" && ValuesEqual(Values.Int(n.line), e.value)
  }

  predicate Satisfies(node: NodePat, n: NodeRecord) {
    (NamesKinds(node) ==> ListsKind(node, n.kind)) && EntriesHold(node.props, n)
  }

  predicate PropsHold(props: seq<NodeProp>, n: NodeRecord) {
    forall i | 0 <= i < |props| :: PropHolds(props[i], n)
  }

  predicate EntriesHold(props: seq<PropEntry>, n: NodeRecord) {
    forall i | 0 <= i < |props| && props[i].key != "kind" :: EntryHolds(props[i], n)
  }

  lemma EntriesSnoc(init: seq<PropEntry>, e: PropEntry, n: NodeRecord, k: SymbolKind)
    ensures HasKindKey(init + [e]) <==> HasKindKey(init) || e.key == "kind"
    ensures HasKind(init + [e], k) <==> HasKind(init, k) || KindEntry(e, k)
    ensures EntriesHold(init + [e], n) <==> EntriesHold(init, n) && (e.key == "kind" || EntryHolds(e, n))
  {
    var all := init + [e];
    assert all[|init|] == e && forall i | 0 <= i < |init| :: all[i] == init[i];
  }

  lemma PropsSnoc(was: seq<NodeProp>, p: NodeProp, n: NodeRecord)
    ensures PropsHold(was + [p], n) <==> PropsHold(was, n) && PropHolds(p, n)
  {
    var all := was + [p];
    assert all[|was|] == p && forall i | 0 <= i < |was| :: all[i] == was[i];
  }

  // One entry adds to the lowered constraint what it adds to the written one.
  lemma EntryMeans(was: Constraint, e: PropEntry, n: NodeRecord, k: SymbolKind)
    requires AddEntry(was, e).Success?
    ensures var c := AddEntry(was, e).value;
      && (c.kinds.Some? <==> was.kinds.Some? || e.key == "kind")
      && (c.kinds.Some? ==> (k in c.kinds.value <==> (was.kinds.Some? && k in was.kinds.value) || KindEntry(e, k)))
      && (PropsHold(c.props, n) <==> PropsHold(was.props, n) && (e.key == "kind" || EntryHolds(e, n)))
  {
    var f := NodeFieldOf(e.key).value;
    if f != KindField {
      PropsSnoc(was.props, NodeProp(f, e.value), n);
    }
  }

  lemma {:induction false} EntriesMean(tag: Option<string>, props: seq<PropEntry>, c: Constraint, n: NodeRecord,
                                       k: SymbolKind)
    requires Constraints(tag, props) == Success(c)
    ensures c.kinds.Some? <==> tag.Some? || HasKindKey(props)
    ensures c.kinds.Some? ==>
              (k in c.kinds.value <==> (tag.Some? && SymbolKindOf(tag.value) == Success(k)) || HasKind(props, k))
    ensures PropsHold(c.props, n) <==> EntriesHold(props, n)
    decreases |props|
  {
    if props != [] {
      var init, e := props[..|props| - 1], props[|props| - 1];
      assert props == init + [e];
      EntriesMean(tag, init, Constraints(tag, init).value, n, k);
      EntriesSnoc(init, e, n, k);
      EntryMeans(Constraints(tag, init).value, e, n, k);
    }
  }

  lemma ConstraintsMean(node: NodePat, c: Constraint, n: NodeRecord)
    requires Constraints(node.tag, node.props) == Success(c)
    ensures Meets(c, n) <==> Satisfies(node, n)
  {
    EntriesMean(node.tag, node.props, c, n, n.kind);
  }
}
