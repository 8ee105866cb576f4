// The canonical order of a file's facts (crates/cgx-frontend/src/facts.rs, FileFacts::canonicalize).
module FactOrder {
  import opened Sequences
  import opened Sorting
  import opened Strings
  import opened ValueOrder

  // A fact without cut markers, compared as a whole.
  type Fact = string

  // A fact with cut markers: the fields its derived order compares before the marker list, the list,
  // and the fields after it.
  datatype Marked = Marked(before: string, markers: seq<nat>, after: string)

  predicate MarkersLeq(a: seq<nat>, b: seq<nat>) {
    SeqCmp(a, b) != Greater
  }

  predicate MarkedLeq(a: Marked, b: Marked) {
    if a.before != b.before then StrLeq(a.before, b.before)
    else if a.markers != b.markers then MarkersLeq(a.markers, b.markers)
    else StrLeq(a.after, b.after)
  }

  lemma FactsOrdered()
    ensures Preorder(StrLeq) && forall s: seq<Fact> :: AntisymmetricOn(s, StrLeq)
  {
    forall a, b, c
      ensures StrLeq(a, b) || StrLeq(b, a)
      ensures StrLeq(a, b) && StrLeq(b, a) ==> a == b
      ensures StrLeq(a, b) && StrLeq(b, c) ==> StrLeq(a, c)
    {
      StrTotal(a, b);
      if StrLeq(a, b) && StrLeq(b, c) {
        StrTransitive(a, b, c);
      }
    }
  }

  lemma MarkedTotal(a: Marked, b: Marked)
    ensures MarkedLeq(a, b) || MarkedLeq(b, a)
    ensures MarkedLeq(a, b) && MarkedLeq(b, a) ==> a == b
  {
    StrTotal(a.before, b.before);
    StrTotal(a.after, b.after);
    SeqCmpLaws(a.markers, b.markers);
  }

  lemma MarkedTransitive(a: Marked, b: Marked, c: Marked)
    requires MarkedLeq(a, b) && MarkedLeq(b, c)
    ensures MarkedLeq(a, c)
  {
    StrTotal(a.before, b.before);
    StrTotal(b.before, c.before);
    if StrLeq(a.before, b.before) && StrLeq(b.before, c.before) {
      StrTransitive(a.before, b.before, c.before);
    }
    SeqCmpLaws(a.markers, b.markers);
    SeqCmpLaws(b.markers, c.markers);
    SeqCmpLaws(a.markers, c.markers);
    if MarkersLeq(a.markers, b.markers) && MarkersLeq(b.markers, c.markers) {
      SeqCmpTransitive(a.markers, b.markers, c.markers);
    }
    if StrLeq(a.after, b.after) && StrLeq(b.after, c.after) {
      StrTransitive(a.after, b.after, c.after);
    }
  }

  lemma MarkedOrdered()
    ensures Preorder(MarkedLeq) && forall s: seq<Marked> :: AntisymmetricOn(s, MarkedLeq)
  {
    forall a, b, c
      ensures MarkedLeq(a, b) || MarkedLeq(b, a)
      ensures MarkedLeq(a, b) && MarkedLeq(b, a) ==> a == b
      ensures MarkedLeq(a, b) && MarkedLeq(b, c) ==> MarkedLeq(a, c)
    {
      MarkedTotal(a, b);
      if MarkedLeq(a, b) && MarkedLeq(b, c) {
        MarkedTransitive(a, b, c);
      }
    }
  }

  // ---- marker lists ----

  predicate NatLeq(a: nat, b: nat) {
    a <= b
  }

  predicate Tidy(m: seq<nat>) {
    forall i, j | 0 <= i < j < |m| :: m[i] < m[j]
  }

  function Tidied(m: seq<nat>): seq<nat> {
    Dedup(Sort(m, NatLeq))
  }

  function TidyOne(x: Marked): Marked {
    x.(markers := Tidied(x.markers))
  }

  lemma TidiedIsTidy(m: seq<nat>)
    ensures Tidy(Tidied(m)) && forall x :: x in Tidied(m) <==> x in m
  {
    SortedDistinct(m, NatLeq);
    assert Strict(Tidied(m), NatLeq);
    assert forall i, j | 0 <= i < j < |Tidied(m)| :: NatLeq(Tidied(m)[i], Tidied(m)[j]);
  }

  lemma SortedIsItself<T(!new)>(s: seq<T>, leq: (T, T) -> bool)
    requires Preorder(leq) && Sorted(s, leq) && AntisymmetricOn(s, leq)
    ensures Sort(s, leq) == s
  {
    SortSorted(s, leq);
    SortUnique(s, Sort(s, leq), leq);
  }

  lemma {:induction false} NoDuplicates<T>(s: seq<T>)
    requires forall i | 0 <= i < |s| - 1 :: s[i] != s[i + 1]
    ensures Dedup(s) == s
    decreases |s|
  {
    if |s| > 1 {
      var t := s[1..];
      forall i | 0 <= i < |t| - 1 ensures t[i] != t[i + 1] {
        var j := i + 1;
        assert s[j] != s[j + 1];
      }
      NoDuplicates(t);
      assert s[0] != s[0 + 1];
      assert s == [s[0]] + t;
    }
  }

  lemma TidyIsFixed(m: seq<nat>)
    requires Tidy(m)
    ensures Tidied(m) == m
  {
    SortedIsItself(m, NatLeq);
    NoDuplicates(m);
  }

  // ---- a vector of marked facts ----

  // `canonicalize` orders the facts first and tidies their marker lists afterwards.
  function Canonical(xs: seq<Marked>): seq<Marked> {
    Map(Sort(xs, MarkedLeq), TidyOne)
  }

  predicate AllTidy(xs: seq<Marked>) {
    forall i | 0 <= i < |xs| :: Tidy(xs[i].markers)
  }

  lemma CanonicalIsTidy(xs: seq<Marked>)
    ensures AllTidy(Canonical(xs))
  {
    var ys := Sort(xs, MarkedLeq);
    forall i | 0 <= i < |ys| ensures Tidy(TidyOne(ys[i]).markers) {
      TidiedIsTidy(ys[i].markers);
    }
  }

  lemma TidyMapIsIdentity(xs: seq<Marked>)
    requires AllTidy(xs)
    ensures Map(xs, TidyOne) == xs
  {
    forall i | 0 <= i < |xs| ensures TidyOne(xs[i]) == xs[i] {
      TidyIsFixed(xs[i].markers);
    }
  }

  lemma SortKeepsTidy(xs: seq<Marked>)
    requires AllTidy(xs)
    ensures AllTidy(Sort(xs, MarkedLeq))
  {
    var ys := Sort(xs, MarkedLeq);
    forall i | 0 <= i < |ys| ensures Tidy(ys[i].markers) {
      assert ys[i] in multiset(ys);
      assert ys[i] in multiset(xs);
    }
  }

  // On tidy facts canonicalising is sorting.
  lemma TidyCanonical(xs: seq<Marked>)
    requires AllTidy(xs)
    ensures Canonical(xs) == Sort(xs, MarkedLeq)
  {
    SortKeepsTidy(xs);
    TidyMapIsIdentity(Sort(xs, MarkedLeq));
  }

  lemma FixedIfSorted(xs: seq<Marked>)
    ensures Canonical(Canonical(xs)) == Canonical(xs) <==> Sorted(Canonical(xs), MarkedLeq)
  {
    var c := Canonical(xs);
    MarkedOrdered();
    CanonicalIsTidy(xs);
    TidyCanonical(c);
    SortSorted(c, MarkedLeq);
    if Sorted(c, MarkedLeq) {
      assert AntisymmetricOn(c, MarkedLeq);
      SortedIsItself(c, MarkedLeq);
    }
  }

  // Tidying the marker lists puts no two of the facts the other way round.
  predicate TidyingKeepsOrder(xs: seq<Marked>) {
    forall i, j | 0 <= i < |xs| && 0 <= j < |xs| && MarkedLeq(xs[i], xs[j]) :: MarkedLeq(TidyOne(xs[i]), TidyOne(xs[j]))
  }

  lemma SortedIfKept(xs: seq<Marked>)
    requires TidyingKeepsOrder(xs)
    ensures Sorted(Canonical(xs), MarkedLeq)
  {
    var ys := Sort(xs, MarkedLeq);
    MarkedOrdered();
    SortSorted(xs, MarkedLeq);
    SameElements(xs, ys);
    forall i, j | 0 <= i < j < |ys| ensures MarkedLeq(TidyOne(ys[i]), TidyOne(ys[j])) {
      assert ys[i] in xs && ys[j] in xs;
    }
  }

  lemma KeptIfSorted(xs: seq<Marked>)
    requires Sorted(Canonical(xs), MarkedLeq)
    ensures TidyingKeepsOrder(xs)
  {
    var ys, c := Sort(xs, MarkedLeq), Canonical(xs);
    MarkedOrdered();
    SortSorted(xs, MarkedLeq);
    SameElements(xs, ys);
    forall x, y | x in xs && y in xs && MarkedLeq(x, y) ensures MarkedLeq(TidyOne(x), TidyOne(y)) {
      var i :| 0 <= i < |ys| && ys[i] == x;
      var j :| 0 <= j < |ys| && ys[j] == y;
      KeptAt(ys, i, j);
    }
  }

  lemma KeptAt(ys: seq<Marked>, i: nat, j: nat)
    requires Sorted(ys, MarkedLeq) && Sorted(Map(ys, TidyOne), MarkedLeq)
    requires i < |ys| && j < |ys| && MarkedLeq(ys[i], ys[j])
    ensures MarkedLeq(TidyOne(ys[i]), TidyOne(ys[j]))
  {
    var c := Map(ys, TidyOne);
    if i < j {
      assert MarkedLeq(c[i], c[j]);
    } else {
      MarkedTotal(ys[i], ys[j]);
      MarkedTotal(TidyOne(ys[i]), TidyOne(ys[j]));
      assert j < i ==> MarkedLeq(ys[j], ys[i]);
    }
  }

  // One pass is enough exactly when tidying the marker lists puts no two facts the other way round.
  lemma OnceExactly(xs: seq<Marked>)
    ensures Canonical(Canonical(xs)) == Canonical(xs) <==> TidyingKeepsOrder(xs)
  {
    FixedIfSorted(xs);
    if TidyingKeepsOrder(xs) {
      SortedIfKept(xs);
    } else if Sorted(Canonical(xs), MarkedLeq) {
      KeptIfSorted(xs);
    }
  }

  // So tidy facts are canonical after one pass.
  lemma OncePerTidy(xs: seq<Marked>)
    requires AllTidy(xs)
    ensures Canonical(Canonical(xs)) == Canonical(xs)
  {
    TidyMapIsIdentity(xs);
    assert forall i | 0 <= i < |xs| :: TidyOne(xs[i]) == Map(xs, TidyOne)[i];
    OnceExactly(xs);
  }

  // Any facts are canonical after two passes.
  lemma TwicePerAny(xs: seq<Marked>)
    ensures Canonical(Canonical(Canonical(xs))) == Canonical(Canonical(xs))
  {
    CanonicalIsTidy(xs);
    OncePerTidy(Canonical(xs));
  }

  // The result depends on the multiset of facts alone.
  lemma CanonicalOfPermuted(xs: seq<Marked>, ys: seq<Marked>)
    requires multiset(xs) == multiset(ys)
    ensures Canonical(xs) == Canonical(ys)
  {
    MarkedOrdered();
    assert AntisymmetricOn(xs, MarkedLeq);
    SortOfPermuted(xs, ys, MarkedLeq);
  }

  lemma TidyTwo()
    ensures Tidied([2, 1]) == [1, 2]
  {
    var none: seq<nat>, one: seq<nat>, two: seq<nat>, up: seq<nat> := [], [1], [2, 1], [1, 2];
    assert two[1..] == one && one[1..] == none;
    assert Sort(none, NatLeq) == none;
    assert Sort(one, NatLeq) == Insert(1, none, NatLeq) == one;
    assert Insert(2, none, NatLeq) == [2];
    assert Insert(2, one, NatLeq) == [1] + Insert(2, none, NatLeq) == up;
    assert Sort(two, NatLeq) == Insert(2, one, NatLeq);
    assert Dedup(up) == up by {
      NoDuplicates(up);
    }
  }

  lemma CompareTwo()
    ensures SeqCmp([1, 3], [2, 1]) == Less && SeqCmp([1, 3], [1, 2]) == Greater
  {
    var a: seq<nat>, b: seq<nat>, c: seq<nat>, d: seq<nat> := [1, 3], [1, 2], [3], [2];
    assert a[1..] == c && b[1..] == d;
    assert SeqCmp(c, d) == Greater;
  }

  // Two facts whose order their tidied marker lists reverse change places on the second pass.
  lemma Reordered(a: Marked, b: Marked)
    requires MarkedLeq(a, b) && !MarkedLeq(TidyOne(a), TidyOne(b))
    ensures Canonical(Canonical([a, b])) != Canonical([a, b])
  {
    assert [a, b][0] == a && [a, b][1] == b;
    OnceExactly([a, b]);
  }

  // Such facts exist: two references with markers `1, 3` and `2, 1`.
  lemma OnePassIsNotEnough(before: string, after: string)
    ensures var xs := [Marked(before, [1, 3], after), Marked(before, [2, 1], after)];
      Canonical(Canonical(xs)) != Canonical(xs)
  {
    var a, b := Marked(before, [1, 3], after), Marked(before, [2, 1], after);
    CompareTwo();
    TidyIsFixed([1, 3]);
    TidyTwo();
    assert TidyOne(a) == a && TidyOne(b) == Marked(before, [1, 2], after);
    Reordered(a, b);
  }

  // ---- a file's facts ----

  class FileFacts {
    // The vectors without cut markers, but for the type facts.
    var plain: seq<seq<Fact>>
    var typeFacts: seq<Fact>
    var refs: seq<Marked>
    var dataFlows: seq<Marked>

    method Canonicalize()
      modifies this
      ensures plain == Map(old(plain), (v: seq<Fact>) => Sort(v, StrLeq))
      ensures typeFacts == Dedup(Sort(old(typeFacts), StrLeq))
      ensures refs == Canonical(old(refs)) && dataFlows == Canonical(old(dataFlows))
    {
      for i := 0 to |plain|
        invariant |plain| == |old(plain)| && refs == old(refs) && dataFlows == old(dataFlows)
        invariant typeFacts == old(typeFacts)
        invariant forall j | 0 <= j < |plain| ::
          plain[j] == if j < i then Sort(old(plain)[j], StrLeq) else old(plain)[j]
      {
        plain := plain[i := Sort(plain[i], StrLeq)];
      }
      refs := Sort(refs, MarkedLeq);
      dataFlows := Sort(dataFlows, MarkedLeq);
      typeFacts := Dedup(Sort(typeFacts, StrLeq));
      refs := TidyAll(refs);
      dataFlows := TidyAll(dataFlows);
    }
  }

  method TidyAll(xs: seq<Marked>) returns (ys: seq<Marked>)
    ensures ys == Map(xs, TidyOne)
  {
    ys := xs;
    for i := 0 to |xs|
      invariant |ys| == |xs| && forall j | 0 <= j < |xs| :: ys[j] == if j < i then TidyOne(xs[j]) else xs[j]
    {
      ys := ys[i := TidyOne(ys[i])];
    }
  }

  // The sorted vectors, too, depend on their multisets alone and are fixed after one pass.
  lemma PlainIsCanonical(v: seq<Fact>, w: seq<Fact>)
    ensures multiset(v) == multiset(w) ==> Sort(v, StrLeq) == Sort(w, StrLeq)
    ensures Sort(Sort(v, StrLeq), StrLeq) == Sort(v, StrLeq)
    ensures Dedup(Sort(Dedup(Sort(v, StrLeq)), StrLeq)) == Dedup(Sort(v, StrLeq))
  {
    FactsOrdered();
    assert AntisymmetricOn(v, StrLeq);
    if multiset(v) == multiset(w) {
      SortOfPermuted(v, w, StrLeq);
    }
    SortSorted(v, StrLeq);
    assert AntisymmetricOn(Sort(v, StrLeq), StrLeq);
    SortedIsItself(Sort(v, StrLeq), StrLeq);
    SortedDistinct(v, StrLeq);
    var d := Dedup(Sort(v, StrLeq));
    assert AntisymmetricOn(d, StrLeq);
    SortedIsItself(d, StrLeq);
    NoDuplicates(d);
  }
}
