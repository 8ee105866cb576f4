// The post-filters of a diff (crates/cgx-diff/src/filter.rs): idempotent, order-preserving and
// commuting.
module DiffFilters {
  import opened Prelude
  import opened Graph
  import opened CodeGraph
  import opened SymbolPatterns
  import opened Sequences
  import opened GraphDiff

  datatype BucketSelect = BucketSelect(added: bool, removed: bool, changed: bool)

  function FromFlags(added: bool, removed: bool, changed: bool): (b: BucketSelect)
    ensures b.added || b.removed || b.changed
    ensures (added || removed || changed) ==> b == BucketSelect(added, removed, changed)
  {
    if !added && !removed && !changed then BucketSelect(true, true, true) else BucketSelect(added, removed, changed)
  }

  datatype DiffFilter = DiffFilter(buckets: BucketSelect, kinds: seq<EdgeKind>, condition: Option<Condition>,
                                   from: Option<SymbolPattern>, to: Option<SymbolPattern>)

  predicate HasEdgePredicate(f: DiffFilter) {
    f.kinds != [] || f.condition.Some? || f.from.Some? || f.to.Some?
  }

  predicate AdmitsEnds(f: DiffFilter, id: EdgeIdentity) {
    && (f.kinds != [] ==> id.kind in f.kinds)
    && (f.from.Some? ==> MatchesFqn(f.from.value, id.srcFqn))
    && (f.to.Some? ==> MatchesFqn(f.to.value, id.dstFqn))
  }

  predicate AdmitsDiffEdge(f: DiffFilter, e: DiffEdge) {
    AdmitsEnds(f, e.identity) && (f.condition.Some? ==> e.record.attrs.condition == f.condition.value)
  }

  // A change is in scope if either side has the condition.
  predicate AdmitsChangedEdge(f: DiffFilter, e: ChangedEdge) {
    && AdmitsEnds(f, e.identity)
    && (f.condition.Some? ==>
          e.base.attrs.condition == f.condition.value || e.head.attrs.condition == f.condition.value)
  }

  function KeepAdded(f: DiffFilter): DiffEdge -> bool {
    (e: DiffEdge) => f.buckets.added && AdmitsDiffEdge(f, e)
  }

  function KeepRemoved(f: DiffFilter): DiffEdge -> bool {
    (e: DiffEdge) => f.buckets.removed && AdmitsDiffEdge(f, e)
  }

  function KeepChanged(f: DiffFilter): ChangedEdge -> bool {
    (e: ChangedEdge) => f.buckets.changed && AdmitsChangedEdge(f, e)
  }

  // Nodes show only without an edge predicate.
  function KeepNode(f: DiffFilter, selected: bool): DiffNode -> bool {
    (n: DiffNode) => selected && !HasEdgePredicate(f)
  }

  function Apply(f: DiffFilter, d: Diff): Diff {
    Diff(if f.buckets.added then Filter(d.addedEdges, (e: DiffEdge) => AdmitsDiffEdge(f, e)) else [],
         if f.buckets.removed then Filter(d.removedEdges, (e: DiffEdge) => AdmitsDiffEdge(f, e)) else [],
         if f.buckets.changed then Filter(d.changedEdges, (e: ChangedEdge) => AdmitsChangedEdge(f, e)) else [],
         if HasEdgePredicate(f) || !f.buckets.added then [] else d.addedNodes,
         if HasEdgePredicate(f) || !f.buckets.removed then [] else d.removedNodes)
  }

  lemma {:induction false} FilterNone<T>(s: seq<T>, p: T -> bool)
    requires forall i | 0 <= i < |s| :: !p(s[i])
    ensures Filter(s, p) == []
    decreases |s|
  {
    if s != [] {
      FilterNone(s[..|s| - 1], p);
    }
  }

  lemma {:induction false} FilterAll<T>(s: seq<T>, p: T -> bool)
    requires forall i | 0 <= i < |s| :: p(s[i])
    ensures Filter(s, p) == s
    decreases |s|
  {
    if s != [] {
      FilterAll(s[..|s| - 1], p);
      assert s == s[..|s| - 1] + [s[|s| - 1]];
    }
  }

  // Every list of the result is a filtering of the diff's: each surviving entry in its old place.
  lemma ApplyIsFilter(f: DiffFilter, d: Diff)
    ensures Apply(f, d) == Diff(
      Filter(d.addedEdges, KeepAdded(f)), Filter(d.removedEdges, KeepRemoved(f)),
      Filter(d.changedEdges, KeepChanged(f)),
      Filter(d.addedNodes, KeepNode(f, f.buckets.added)), Filter(d.removedNodes, KeepNode(f, f.buckets.removed)))
  {
    Chosen(d.addedEdges, f.buckets.added, (e: DiffEdge) => AdmitsDiffEdge(f, e), KeepAdded(f));
    Chosen(d.removedEdges, f.buckets.removed, (e: DiffEdge) => AdmitsDiffEdge(f, e), KeepRemoved(f));
    Chosen(d.changedEdges, f.buckets.changed, (e: ChangedEdge) => AdmitsChangedEdge(f, e), KeepChanged(f));
    Shown(d.addedNodes, f.buckets.added && !HasEdgePredicate(f), KeepNode(f, f.buckets.added));
    Shown(d.removedNodes, f.buckets.removed && !HasEdgePredicate(f), KeepNode(f, f.buckets.removed));
  }

  lemma Chosen<T>(s: seq<T>, on: bool, p: T -> bool, q: T -> bool)
    requires forall x :: q(x) == (on && p(x))
    ensures Filter(s, q) == if on then Filter(s, p) else []
  {
    if on {
      FilterSame(s, p, q);
    } else {
      FilterNone(s, q);
    }
  }

  lemma Shown<T>(s: seq<T>, on: bool, q: T -> bool)
    requires forall x :: q(x) == on
    ensures Filter(s, q) == if on then s else []
  {
    if on {
      FilterAll(s, q);
    } else {
      FilterNone(s, q);
    }
  }

  lemma Commutes<T>(s: seq<T>, p: T -> bool, q: T -> bool)
    ensures Filter(Filter(s, p), q) == Filter(Filter(s, q), p)
    ensures Filter(Filter(s, p), p) == Filter(s, p)
  {
    FilterTwice(s, p, q);
    FilterTwice(s, q, p);
    FilterTwice(s, p, p);
    FilterSame(s, Both(p, q), Both(q, p));
    FilterSame(s, Both(p, p), p);
  }

  // Filters commute, and applying one twice is applying it once.
  lemma FiltersCommute(f: DiffFilter, g: DiffFilter, d: Diff)
    ensures Apply(f, Apply(g, d)) == Apply(g, Apply(f, d))
    ensures Apply(f, Apply(f, d)) == Apply(f, d)
  {
    ApplyIsFilter(f, d);
    ApplyIsFilter(g, d);
    ApplyIsFilter(f, Apply(g, d));
    ApplyIsFilter(g, Apply(f, d));
    ApplyIsFilter(f, Apply(f, d));
    Commutes(d.addedEdges, KeepAdded(f), KeepAdded(g));
    Commutes(d.removedEdges, KeepRemoved(f), KeepRemoved(g));
    Commutes(d.changedEdges, KeepChanged(f), KeepChanged(g));
    Commutes(d.addedNodes, KeepNode(f, f.buckets.added), KeepNode(g, g.buckets.added));
    Commutes(d.removedNodes, KeepNode(f, f.buckets.removed), KeepNode(g, g.buckets.removed));
  }
}
