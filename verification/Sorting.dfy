// Stable sorting by a comparison, as Rust's `sort` and `sort_by` promise it. The
// insertion sort stands for any stable sort: `SortUnique` and `SortKeepsTies` pin its result down.
module Sorting {
  import opened Sequences

  ghost predicate Preorder<T(!new)>(leq: (T, T) -> bool) {
    && (forall x, y :: leq(x, y) || leq(y, x))
    && (forall x, y, z :: leq(x, y) && leq(y, z) ==> leq(x, z))
  }

  ghost predicate Sorted<T(!new)>(s: seq<T>, leq: (T, T) -> bool) {
    forall i, j | 0 <= i < j < |s| :: leq(s[i], s[j])
  }

  // Puts `x` before the first element it does not exceed, so ties keep their order.
  function Insert<T>(x: T, s: seq<T>, leq: (T, T) -> bool): (r: seq<T>)
    ensures multiset(r) == multiset{x} + multiset(s)
    ensures |r| == |s| + 1
  {
    if s == [] || leq(x, s[0]) then [x] + s
    else
      assert s == [s[0]] + s[1..];
      [s[0]] + Insert(x, s[1..], leq)
  }

  function Sort<T>(s: seq<T>, leq: (T, T) -> bool): (r: seq<T>)
    ensures multiset(r) == multiset(s)
    ensures |r| == |s|
  {
    if s == [] then []
    else
      assert s == [s[0]] + s[1..];
      Insert(s[0], Sort(s[1..], leq), leq)
  }

  lemma {:induction false} InsertSorted<T(!new)>(x: T, s: seq<T>, leq: (T, T) -> bool)
    requires Preorder(leq) && Sorted(s, leq)
    ensures Sorted(Insert(x, s, leq), leq)
    decreases |s|
  {
    if s != [] && !leq(x, s[0]) {
      InsertSorted(x, s[1..], leq);
      var t := Insert(x, s[1..], leq);
      assert forall y | y in t :: leq(s[0], y) by {
        forall y | y in t ensures leq(s[0], y) {
          assert y in multiset(t);
          if y != x {
            var i :| 0 <= i < |s[1..]| && s[1..][i] == y;
            assert leq(s[0], s[i + 1]);
          }
        }
      }
    }
  }

  lemma {:induction false} SortSorted<T(!new)>(s: seq<T>, leq: (T, T) -> bool)
    requires Preorder(leq)
    ensures Sorted(Sort(s, leq), leq)
    decreases |s|
  {
    if s != [] {
      SortSorted(s[1..], leq);
      InsertSorted(s[0], Sort(s[1..], leq), leq);
    }
  }

  // Ties only between equal elements of `s`.
  ghost predicate AntisymmetricOn<T(!new)>(s: seq<T>, leq: (T, T) -> bool) {
    forall x, y | x in s && y in s && leq(x, y) && leq(y, x) :: x == y
  }

  lemma SortedHead<T(!new)>(s: seq<T>, x: T, leq: (T, T) -> bool)
    requires Preorder(leq) && Sorted(s, leq) && x in s
    ensures leq(s[0], x)
  {
    var i :| 0 <= i < |s| && s[i] == x;
  }

  lemma SortedTail<T(!new)>(s: seq<T>, leq: (T, T) -> bool)
    requires Sorted(s, leq) && s != []
    ensures Sorted(s[1..], leq) && (AntisymmetricOn(s, leq) ==> AntisymmetricOn(s[1..], leq))
  {
    assert forall x | x in s[1..] :: x in s;
  }

  // Under an antisymmetric order a multiset has one sorted arrangement.
  lemma {:induction false} SortUnique<T(!new)>(s: seq<T>, t: seq<T>, leq: (T, T) -> bool)
    requires Preorder(leq) && Sorted(s, leq) && Sorted(t, leq) && multiset(s) == multiset(t)
    requires AntisymmetricOn(s, leq)
    ensures s == t
    decreases |s|
  {
    assert |s| == |multiset(s)| == |multiset(t)| == |t|;
    if s != [] {
      assert s[0] in multiset(t) && t[0] in multiset(s);
      SortedHead(s, t[0], leq);
      SortedHead(t, s[0], leq);
      assert s == [s[0]] + s[1..] && t == [t[0]] + t[1..];
      assert multiset(s[1..]) == multiset(s) - multiset{s[0]};
      assert multiset(t[1..]) == multiset(t) - multiset{t[0]};
      SortedTail(s, leq);
      SortedTail(t, leq);
      SortUnique(s[1..], t[1..], leq);
    }
  }

  // The sub-list of elements that tie with `k`, in order.
  function Ties<T>(s: seq<T>, k: T, leq: (T, T) -> bool): seq<T> {
    if s == [] then []
    else if leq(s[0], k) && leq(k, s[0]) then [s[0]] + Ties(s[1..], k, leq)
    else Ties(s[1..], k, leq)
  }

  lemma {:induction false} InsertKeepsTies<T(!new)>(x: T, s: seq<T>, k: T, leq: (T, T) -> bool)
    requires Preorder(leq)
    ensures Ties(Insert(x, s, leq), k, leq) == Ties([x] + s, k, leq)
    decreases |s|
  {
    assert ([x] + s)[1..] == s;
    if s != [] && !leq(x, s[0]) {
      InsertKeepsTies(x, s[1..], k, leq);
      var t := Insert(x, s[1..], leq);
      assert ([s[0]] + t)[1..] == t;
      assert ([x] + s[1..])[1..] == s[1..];
    }
  }

  // Stability.
  lemma {:induction false} SortKeepsTies<T(!new)>(s: seq<T>, k: T, leq: (T, T) -> bool)
    requires Preorder(leq)
    ensures Ties(Sort(s, leq), k, leq) == Ties(s, k, leq)
    decreases |s|
  {
    if s != [] {
      var t := Sort(s[1..], leq);
      SortKeepsTies(s[1..], k, leq);
      InsertKeepsTies(s[0], t, k, leq);
      assert ([s[0]] + t)[1..] == t;
    }
  }

  // Sorting asks nothing of an order but its answers.
  lemma {:induction false} SortSame<T>(s: seq<T>, leq: (T, T) -> bool, leq': (T, T) -> bool)
    requires forall x, y | x in s && y in s :: leq(x, y) == leq'(x, y)
    ensures Sort(s, leq) == Sort(s, leq')
    decreases |s|
  {
    if s != [] {
      SortSame(s[1..], leq, leq');
      var t := Sort(s[1..], leq);
      forall y | y in t ensures leq(s[0], y) == leq'(s[0], y) {
        assert y in multiset(t);
      }
      InsertSame(s[0], t, leq, leq');
    }
  }

  lemma {:induction false} InsertSame<T>(x: T, s: seq<T>, leq: (T, T) -> bool, leq': (T, T) -> bool)
    requires forall y | y in s :: leq(x, y) == leq'(x, y)
    ensures Insert(x, s, leq) == Insert(x, s, leq')
    decreases |s|
  {
    if s != [] && !leq(x, s[0]) {
      InsertSame(x, s[1..], leq, leq');
    }
  }

  function Through<A, B>(f: A -> B, leq: (B, B) -> bool): (A, A) -> bool {
    (x: A, y: A) => leq(f(x), f(y))
  }

  lemma {:induction false} InsertMap<A, B>(x: A, s: seq<A>, f: A -> B, leq: (B, B) -> bool)
    ensures Map(Insert(x, s, Through(f, leq)), f) == Insert(f(x), Map(s, f), leq)
    decreases |s|
  {
    if s != [] {
      MapTail(s, f);
    }
    if s == [] || leq(f(x), f(s[0])) {
      MapCons(x, s, f);
    } else {
      InsertMap(x, s[1..], f, leq);
      MapCons(s[0], Insert(x, s[1..], Through(f, leq)), f);
    }
  }

  // Sorting by a key and reading the keys off is sorting the keys.
  lemma {:induction false} SortMap<A, B>(s: seq<A>, f: A -> B, leq: (B, B) -> bool)
    ensures Map(Sort(s, Through(f, leq)), f) == Sort(Map(s, f), leq)
    decreases |s|
  {
    if s != [] {
      SortMap(s[1..], f, leq);
      InsertMap(s[0], Sort(s[1..], Through(f, leq)), f, leq);
      MapTail(s, f);
    }
  }

  // A sort by an order that tells elements apart depends on the multiset alone.
  lemma SortOfPermuted<T(!new)>(s: seq<T>, t: seq<T>, leq: (T, T) -> bool)
    requires Preorder(leq) && multiset(s) == multiset(t) && AntisymmetricOn(s, leq)
    ensures Sort(s, leq) == Sort(t, leq)
  {
    SortSorted(s, leq);
    SortSorted(t, leq);
    var a := Sort(s, leq);
    assert AntisymmetricOn(a, leq) by {
      forall x, y | x in a && y in a && leq(x, y) && leq(y, x) ensures x == y {
        assert x in multiset(a) && y in multiset(a);
        assert x in multiset(s) && y in multiset(s);
      }
    }
    SortUnique(a, Sort(t, leq), leq);
  }

  // ---- removing adjacent duplicates ----

  function Dedup<T(==)>(s: seq<T>): seq<T> {
    if |s| <= 1 then s
    else if s[0] == s[1] then Dedup(s[1..])
    else [s[0]] + Dedup(s[1..])
  }

  // Strictly increasing: in order, and nothing twice.
  ghost predicate Strict<T(!new)>(s: seq<T>, leq: (T, T) -> bool) {
    forall i, j | 0 <= i < j < |s| :: leq(s[i], s[j]) && s[i] != s[j]
  }

  // A sorted list loses its duplicates and nothing else.
  lemma {:induction false} DedupLaws<T(!new)>(s: seq<T>, leq: (T, T) -> bool)
    requires Preorder(leq) && Sorted(s, leq) && AntisymmetricOn(s, leq)
    ensures Strict(Dedup(s), leq)
    ensures forall x :: x in Dedup(s) <==> x in s
    ensures s != [] ==> Dedup(s) != [] && Dedup(s)[0] == s[0]
    decreases |s|
  {
    if |s| > 1 {
      var t := s[1..];
      assert s == [s[0]] + t;
      DedupLaws(t, leq);
      var d := Dedup(t);
      if s[0] != s[1] {
        forall j | 0 <= j < |d| ensures leq(s[0], d[j]) && s[0] != d[j] {
          assert d[j] in t;
          var k :| 0 <= k < |t| && t[k] == d[j];
          assert leq(s[0], s[k + 1]) && (k > 0 ==> leq(s[1], s[k + 1]));
        }
      }
    }
  }

  lemma SortedDistinct<T(!new)>(s: seq<T>, leq: (T, T) -> bool)
    requires Preorder(leq) && AntisymmetricOn(s, leq)
    ensures Strict(Dedup(Sort(s, leq)), leq)
    ensures forall x :: x in Dedup(Sort(s, leq)) <==> x in s
  {
    var t := Sort(s, leq);
    SortSorted(s, leq);
    SameElements(s, t);
    DedupLaws(t, leq);
  }

  // ---- listing a set in order ----

  ghost predicate Antisymmetric<T(!new)>(leq: (T, T) -> bool) {
    forall x, y | leq(x, y) && leq(y, x) :: x == y
  }

  // `s` lists `keys` in order, each once, as iterating an ordered map does.
  ghost predicate ListsKeys<T(!new)>(s: seq<T>, keys: set<T>, leq: (T, T) -> bool) {
    Strict(s, leq) && forall k :: k in s <==> k in keys
  }

  method InOrder<T(!new, ==)>(keys: set<T>, leq: (T, T) -> bool) returns (s: seq<T>)
    requires Preorder(leq) && Antisymmetric(leq)
    ensures ListsKeys(s, keys, leq)
  {
    var some: seq<T> := [];
    var left := keys;
    while left != {}
      invariant left <= keys && forall k :: k in some <==> k in keys - left
      decreases |left|
    {
      var k :| k in left;
      some := some + [k];
      left := left - {k};
    }
    s := Dedup(Sort(some, leq));
    SortedDistinct(some, leq);
  }

  lemma StrictTail<T(!new)>(s: seq<T>, leq: (T, T) -> bool, k: T)
    requires Strict(s, leq) && s != []
    ensures k in s[1..] <==> k in s && k != s[0]
  {
    if k in s[1..] {
      var i :| 0 <= i < |s[1..]| && s[1..][i] == k;
      assert s[i + 1] == k;
    }
    if k in s && k != s[0] {
      var i :| 0 <= i < |s| && s[i] == k;
      assert s[1..][i - 1] == k;
    }
  }

  // There is one such list.
  lemma {:induction false} ListsOnce<T(!new)>(s: seq<T>, t: seq<T>, leq: (T, T) -> bool)
    requires Preorder(leq) && Antisymmetric(leq)
    requires Strict(s, leq) && Strict(t, leq) && forall k :: k in s <==> k in t
    ensures s == t
    decreases |s|
  {
    assert s != [] ==> s[0] in s;
    assert t != [] ==> t[0] in t;
    if s != [] {
      var i :| 0 <= i < |t| && t[i] == s[0];
      var j :| 0 <= j < |s| && s[j] == t[0];
      assert leq(t[0], s[0]) && leq(s[0], t[0]);
      assert s == [s[0]] + s[1..] && t == [t[0]] + t[1..];
      forall k ensures k in s[1..] <==> k in t[1..] {
        assert k in s <==> k in t;
        StrictTail(s, leq, k);
        StrictTail(t, leq, k);
      }
      ListsOnce(s[1..], t[1..], leq);
    }
  }

  // ---- a stable sort keeps ties in place ----

  lemma InsertBehind<T>(x: T, h: T, t: seq<T>, leq: (T, T) -> bool)
    requires !leq(x, h)
    ensures Insert(x, [h] + t, leq) == [h] + Insert(x, t, leq)
  {
    assert ([h] + t)[1..] == t;
  }

  // An element is put between what it exceeds and what it does not.
  lemma {:induction false} InsertBetween<T>(x: T, a: seq<T>, b: seq<T>, leq: (T, T) -> bool)
    requires (forall y | y in a :: !leq(x, y)) && (b != [] ==> leq(x, b[0]))
    ensures Insert(x, a + b, leq) == a + [x] + b
    decreases |a|
  {
    if a == [] {
      assert a + b == b;
    } else {
      var h, t := a[0], a[1..];
      assert a + b == [h] + (t + b) && a + [x] + b == [h] + (t + [x] + b);
      InsertBehind(x, h, t + b, leq);
      InsertBetween(x, t, b, leq);
    }
  }

  // Two ties are put side by side, the first in front.
  lemma InsertTies<T>(x: T, y: T, a: seq<T>, b: seq<T>, leq: (T, T) -> bool)
    requires leq(x, y) && (forall z | z in a :: !leq(x, z) && !leq(y, z)) && (b != [] ==> leq(y, b[0]))
    ensures Insert(x, Insert(y, a + b, leq), leq) == a + [x, y] + b
  {
    InsertBetween(y, a, b, leq);
    InsertBetween(x, a, [y] + b, leq);
    SideBySide(x, y, a, b);
  }

  // Once an element is not exceeded by `x`, no later one is.
  ghost predicate Upward<T>(x: T, s: seq<T>, leq: (T, T) -> bool) {
    forall i, j | 0 <= i < j < |s| && leq(x, s[i]) :: leq(x, s[j])
  }

  lemma SortedUpward<T(!new)>(x: T, s: seq<T>, leq: (T, T) -> bool)
    requires Preorder(leq) && Sorted(s, leq)
    ensures Upward(x, s, leq)
  {
    forall i, j | 0 <= i < j < |s| && leq(x, s[i]) ensures leq(x, s[j]) {
      assert leq(s[i], s[j]);
    }
  }

  // What `x` exceeds comes first, what it does not comes after.
  lemma {:induction false} SplitAt<T>(x: T, s: seq<T>, leq: (T, T) -> bool) returns (a: seq<T>, b: seq<T>)
    requires Upward(x, s, leq)
    ensures s == a + b && (forall y | y in a :: !leq(x, y)) && forall y | y in b :: leq(x, y)
    decreases |s|
  {
    if s == [] || leq(x, s[0]) {
      a, b := [], s;
      forall y | y in b ensures leq(x, y) {
        var j :| 0 <= j < |s| && s[j] == y;
        assert j > 0 ==> leq(x, s[0]);
      }
    } else {
      var a', b' := SplitAt(x, s[1..], leq);
      a, b := [s[0]] + a', b';
      assert s == [s[0]] + s[1..];
    }
  }

  lemma FilterInsert<T>(x: T, s: seq<T>, p: T -> bool, leq: (T, T) -> bool)
    requires Upward(x, s, leq)
    ensures Filter(Insert(x, s, leq), p) == if p(x) then Insert(x, Filter(s, p), leq) else Filter(s, p)
  {
    var a, b := SplitAt(x, s, leq);
    InsertBetween(x, a, b, leq);
    FilterBetween(x, a, b, p, leq);
  }

  lemma FilterBetween<T>(x: T, a: seq<T>, b: seq<T>, p: T -> bool, leq: (T, T) -> bool)
    requires (forall y | y in a :: !leq(x, y)) && (forall y | y in b :: leq(x, y))
    ensures Filter(a + [x] + b, p) == if p(x) then Insert(x, Filter(a + b, p), leq) else Filter(a + b, p)
  {
    FilterKeeps(a, p);
    FilterKeeps(b, p);
    InsertBetween(x, Filter(a, p), Filter(b, p), leq);
    FilterAppend(a, b, p);
    FilterAround(x, a, b, p);
  }

  // Filtering a sorted list is sorting the filtered one.
  lemma {:induction false} FilterSort<T(!new)>(s: seq<T>, p: T -> bool, leq: (T, T) -> bool)
    requires Preorder(leq)
    ensures Filter(Sort(s, leq), p) == Sort(Filter(s, p), leq)
    decreases |s|
  {
    if s != [] {
      var x, t := s[0], s[1..];
      FilterSort(t, p, leq);
      SortSorted(t, leq);
      SortedUpward(x, Sort(t, leq), leq);
      FilterInsert(x, Sort(t, leq), p, leq);
      FilterSortStep(x, t, p, leq);
      assert s == [x] + t;
    }
  }

  lemma FilterSortStep<T>(x: T, t: seq<T>, p: T -> bool, leq: (T, T) -> bool)
    ensures Sort(Filter([x] + t, p), leq)
         == if p(x) then Insert(x, Sort(Filter(t, p), leq), leq) else Sort(Filter(t, p), leq)
  {
    FilterCons(x, t, p);
    if p(x) {
      assert ([x] + Filter(t, p))[1..] == Filter(t, p);
    } else {
      assert [] + Filter(t, p) == Filter(t, p);
    }
  }
}
