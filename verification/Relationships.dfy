// What a written relationship admits, and that its lowered edge filter and walk direction admit the
// same (crates/cgx-cql/src/lower.rs, rel_kinds_multi, apply_rel_props, walk_direction).
module Relationships {
  import opened Prelude
  import opened Graph
  import opened Ast
  import opened CodeGraph
  import opened Lowering

  predicate TypeAdmits(t: string, k: EdgeKind) {
    RelKindOf(t).Success? && k in RelKindOf(t).value.kinds
  }

  predicate SomeTypeAdmits(types: seq<string>, k: EdgeKind) {
    exists i | 0 <= i < |types| :: TypeAdmits(types[i], k)
  }

  // Without types, any call.
  predicate TypesAdmit(types: seq<string>, k: EdgeKind) {
    if types == [] then IsCall(k) else SomeTypeAdmits(types, k)
  }

  // The value of a key: its last entry.
  function LastOf(props: seq<PropEntry>, key: string): Option<Value> {
    if props == [] then None
    else if props[|props| - 1].key == key then Some(props[|props| - 1].value)
    else LastOf(props[..|props| - 1], key)
  }

  // The condition is exact, the confidence a floor.
  predicate RelHolds(rel: RelPat, e: EdgeRecord) {
    && TypesAdmit(rel.types, e.kind)
    && (match LastOf(rel.props, "condition")
        case None => true
        case Some(v) => ConditionOf(v) == Success(e.condition))
    && (match LastOf(rel.props, "confidence")
        case None => true
        case Some(v) => ConfidenceOf(v).Success? && Rank(e.confidence) >= Rank(ConfidenceOf(v).value))
  }

  // MEMBER_OF is written member to type and stored type to member.
  predicate Inverted(rel: RelPat) {
    "MEMBER_OF" in rel.types
  }

  // The written arrow runs from `s` to `t` over the stored edge.
  predicate Runs(rel: RelPat, e: EdgeRecord, s: NodeId, t: NodeId) {
    if (rel.direction == Forward) != Inverted(rel) then e.src == s && e.dst == t
    else e.src == t && e.dst == s
  }

  lemma OnlyMemberOfInverts(t: string)
    requires RelKindOf(t).Success?
    ensures RelKindOf(t).value.invert <==> t == "MEMBER_OF"
    ensures RelKindOf(t).value.kinds != []
  {
  }

  lemma {:induction false} KindsMean(types: seq<string>, r: RelKind, k: EdgeKind)
    requires RelKindsOf(types) == Success(r)
    ensures k in r.kinds <==> SomeTypeAdmits(types, k)
    ensures r.kinds == [] <==> types == []
    ensures r.invert <==> "MEMBER_OF" in types
    ensures forall i | 0 <= i < |types| :: (types[i] == "MEMBER_OF") == r.invert
    decreases |types|
  {
    if types != [] {
      var init, t := types[..|types| - 1], types[|types| - 1];
      assert types == init + [t];
      var was, one := RelKindsOf(init).value, RelKindOf(t).value;
      KindsMean(init, was, k);
      OnlyMemberOfInverts(t);
      SomeSnoc(init, t, k);
      assert r.kinds == was.kinds + one.kinds;
      assert init != [] ==> init[0] in init;
    }
  }

  lemma SomeSnoc(init: seq<string>, t: string, k: EdgeKind)
    ensures SomeTypeAdmits(init + [t], k) <==> SomeTypeAdmits(init, k) || TypeAdmits(t, k)
  {
    var all := init + [t];
    assert all[|init|] == t && forall i | 0 <= i < |init| :: all[i] == init[i];
  }

  lemma {:induction false} PropsMean(f: EdgeFilter, props: seq<PropEntry>, r: EdgeFilter)
    requires RelProps(f, props) == Success(r)
    ensures r.kinds == f.kinds
    ensures match LastOf(props, "condition")
            case None => r.condition == f.condition
            case Some(v) => ConditionOf(v).Success? && r.condition == Only(ConditionOf(v).value)
    ensures match LastOf(props, "confidence")
            case None => r.minConfidence == f.minConfidence
            case Some(v) => ConfidenceOf(v).Success? && r.minConfidence == ConfidenceOf(v).value
    decreases |props|
  {
    if props != [] {
      PropsMean(f, props[..|props| - 1], RelProps(f, props[..|props| - 1]).value);
    }
  }

  // The lowered filter admits exactly what the relationship does, and the lowered direction runs
  // along the written arrow.
  lemma FilterMeans(start: NodePat, rel: RelPat, end: NodePat, p: Parts, e: EdgeRecord, s: NodeId, t: NodeId)
    requires PartsOf(start, rel, end) == Success(p)
    ensures Admits(p.filter, e) <==> RelHolds(rel, e)
    ensures Runs(rel, e, s, t) <==>
      var d := WalkDirection(rel.direction, p.rel.invert);
      Near(e, d) == s && Far(e, d) == t
  {
    KindsMean(rel.types, p.rel, e.kind);
    PropsMean(CallsFilter(p.rel.kinds), rel.props, p.filter);
  }
}
