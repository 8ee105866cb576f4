// What `anchor_set` keeps of an end's constraints, and exactly when that is all of them
// (crates/cgx-cql/src/lower.rs, anchor_set).
module Anchoring {
  import opened Prelude
  import Values
  import opened Graph
  import opened Ast
  import opened CodeGraph
  import opened SymbolPatterns
  import opened Lowering
  import opened Evaluation
  import opened Strings

  predicate Keeps(a: AnchorSet, n: NodeRecord) {
    match a
    case Symbol(p) => MatchesFqn(p, n.fqn)
    case Kinds(ks) => n.kind in ks
    case All => true
  }

  // Anchors are resolved to exactly the nodes kept, each once.
  lemma AnchorIdsMean(g: GraphView, a: AnchorSet, id: NodeId)
    ensures id in AnchorIds(g, a) <==> id < |g.nodes| && Keeps(a, g.nodes[id])
    ensures forall i, j | 0 <= i < j < |AnchorIds(g, a)| :: AnchorIds(g, a)[i] != AnchorIds(g, a)[j]
  {
  }

  lemma MeetsKeeps(c: Constraint, n: NodeRecord)
    requires Meets(c, n)
    ensures Keeps(AnchorSetOf(c), n)
  {
    if HasName(c.props) && FirstName(c.props).Str? {
      var i :| 0 <= i < |c.props| && c.props[i] == NodeProp(FqnField, FirstName(c.props));
      assert PropHolds(c.props[i], n);
    }
  }

  // As lowering builds constraints: a kind set is never empty, and kinds are not properties.
  predicate WellFormed(c: Constraint) {
    && (c.kinds.Some? ==> c.kinds.value != [])
    && forall i | 0 <= i < |c.props| :: c.props[i].field != KindField
  }

  lemma {:induction false} ConstraintsWellFormed(tag: Option<string>, props: seq<PropEntry>)
    requires Constraints(tag, props).Success?
    ensures WellFormed(Constraints(tag, props).value)
    decreases |props|
  {
    if props != [] {
      ConstraintsWellFormed(tag, props[..|props| - 1]);
    }
  }

  ghost predicate Implies(p: SymbolPattern, q: SymbolPattern) {
    forall fqn :: MatchesFqn(p, fqn) ==> MatchesFqn(q, fqn)
  }

  ghost predicate NameFollows(first: string, p: NodeProp) {
    p.field == FqnField && p.value.Str? && Implies(NamePattern(first), NamePattern(p.value.text))
  }

  // The kept constraint implies the others: a first name with only names it implies beside it and
  // no real kind restriction, or no properties at all.
  ghost predicate Lossless(c: Constraint) {
    if HasName(c.props) && FirstName(c.props).Str? then
      && (c.kinds.Some? ==> forall k: SymbolKind :: k in c.kinds.value)
      && forall i | 0 <= i < |c.props| :: NameFollows(FirstName(c.props).text, c.props[i])
    else c.props == []
  }

  // The shapes a reader can tell at a glance: a lone string name, kinds alone, or nothing.
  lemma LossFreeShapes(c: Constraint)
    requires c.props == []
      || (c.kinds.None? && |c.props| == 1 && c.props[0].field == FqnField && c.props[0].value.Str?)
    ensures Lossless(c)
  {
    if c.props != [] {
      assert c.props[0] == NodeProp(FqnField, FirstName(c.props));
    }
  }

  ghost predicate KeepsEnough(c: Constraint) {
    forall n :: Keeps(AnchorSetOf(c), n) ==> Meets(c, n)
  }

  lemma LosslessKeepsEnough(c: Constraint, n: NodeRecord)
    requires Lossless(c) && Keeps(AnchorSetOf(c), n)
    ensures Meets(c, n)
  {
    if c.props != [] {
      forall i | 0 <= i < |c.props| ensures PropHolds(c.props[i], n) {
        assert NameFollows(FirstName(c.props).text, c.props[i]);
      }
    }
  }

  // ---- the converse: a dropped constraint is visible on some node ----

  lemma {:induction false} GlobInhabited(pat: string) returns (text: string)
    ensures GlobAt(pat, text)
    decreases |pat|
  {
    if pat == [] {
      text := [];
    } else if StartsWith(pat, "**") {
      text := GlobInhabited(pat[2..]);
      assert text[0..] == text;
    } else if pat[0] == '*' {
      text := GlobInhabited(pat[1..]);
      assert text[0..] == text && SegmentRun(text, 0);
    } else {
      var more := GlobInhabited(pat[1..]);
      text := [if pat[0] == '?' then 'a' else pat[0]] + more;
      assert text[1..] == more;
    }
  }

  lemma NameInhabited(s: string) returns (fqn: string)
    ensures MatchesFqn(NamePattern(s), fqn)
  {
    if NamePattern(s).kind == Glob {
      fqn := GlobInhabited(s);
    } else {
      fqn := s;
    }
  }

  // A file or line that differs from the one asked for.
  function Other(p: NodeProp, kind: SymbolKind, fqn: string): NodeRecord {
    var v := p.value;
    if p.field == FileField && v.Str? then NodeRecord(kind, fqn, v.text + "x", 0)
    else if p.field == LineField && v == Values.Int(0) then NodeRecord(kind, fqn, "", 1)
    else if p.field == LineField && v == Values.Float(Values.Finite(0.0)) then NodeRecord(kind, fqn, "", 1)
    else NodeRecord(kind, fqn, "", 0)
  }

  lemma OtherFails(p: NodeProp, kind: SymbolKind, fqn: string)
    requires p.field != KindField && (p.field == FqnField ==> !p.value.Str?)
    ensures !PropHolds(p, Other(p, kind, fqn)) && Other(p, kind, fqn).kind == kind && Other(p, kind, fqn).fqn == fqn
  {
    var n := Other(p, kind, fqn);
    if p.field == FileField && p.value.Str? {
      assert |n.file| == |p.value.text| + 1;
    } else if p.field == LineField {
      assert (0 as real) == 0.0 && (1 as real) == 1.0;
      assert FieldValue(n, LineField) == Values.Int(n.line);
    }
  }

  lemma Refutes(c: Constraint, i: nat, n: NodeRecord)
    requires i < |c.props| && !PropHolds(c.props[i], n) && Keeps(AnchorSetOf(c), n)
    ensures !KeepsEnough(c)
  {
    assert !Meets(c, n);
  }

  lemma DroppedProp(c: Constraint, i: nat)
    requires WellFormed(c) && i < |c.props|
    requires !(HasName(c.props) && FirstName(c.props).Str?)
    ensures !KeepsEnough(c)
  {
    var p := c.props[i];
    var kind := if c.kinds.Some? then c.kinds.value[0] else Function;
    if p.field == FqnField && p.value.Str? {
      var j :| 0 <= j < |c.props| && c.props[j] == NodeProp(FqnField, FirstName(c.props));
      OtherFails(c.props[j], kind, "");
      Refutes(c, j, Other(c.props[j], kind, ""));
    } else {
      OtherFails(p, kind, "");
      Refutes(c, i, Other(p, kind, ""));
    }
  }

  lemma DroppedBesideName(c: Constraint, i: nat)
    requires WellFormed(c) && i < |c.props| && HasName(c.props) && FirstName(c.props).Str?
    requires !NameFollows(FirstName(c.props).text, c.props[i])
    ensures !KeepsEnough(c)
  {
    var p := c.props[i];
    if p.field == FqnField && p.value.Str? {
      var fqn :| MatchesFqn(NamePattern(FirstName(c.props).text), fqn) && !MatchesFqn(NamePattern(p.value.text), fqn);
      Refutes(c, i, NodeRecord(Function, fqn, "", 0));
    } else {
      var fqn := NameInhabited(FirstName(c.props).text);
      OtherFails(p, Function, fqn);
      Refutes(c, i, Other(p, Function, fqn));
    }
  }

  // What is kept is everything exactly when the kept constraint implies the rest.
  lemma AnchorSetIsLossless(c: Constraint)
    requires WellFormed(c)
    ensures KeepsEnough(c) <==> Lossless(c)
  {
    if Lossless(c) {
      forall n | Keeps(AnchorSetOf(c), n) ensures Meets(c, n) {
        LosslessKeepsEnough(c, n);
      }
    } else if HasName(c.props) && FirstName(c.props).Str? {
      if i :| 0 <= i < |c.props| && !NameFollows(FirstName(c.props).text, c.props[i]) {
        DroppedBesideName(c, i);
      } else {
        var k: SymbolKind :| k !in c.kinds.value;
        var fqn := NameInhabited(FirstName(c.props).text);
        var n := NodeRecord(k, fqn, "", 0);
        assert Keeps(AnchorSetOf(c), n) && !Meets(c, n);
      }
    } else {
      DroppedProp(c, 0);
    }
  }
}
