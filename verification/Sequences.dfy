// Lists and their elements: mapping, filtering, counting, and what rearrangement leaves alone.
module Sequences {
  lemma LastApart<T>(s: seq<T>, t: seq<T>)
    requires t != []
    ensures t == t[..|t| - 1] + [t[|t| - 1]] && s + t == (s + t[..|t| - 1]) + [t[|t| - 1]]
  {
  }

  // ---- rearranged lists ----

  function Without<T>(s: seq<T>, i: nat): seq<T>
    requires i < |s|
  {
    s[..i] + s[i + 1..]
  }

  lemma MiddleOut<T>(x: seq<T>, y: seq<T>, z: seq<T>)
    ensures multiset(x + (y + z)) == multiset(x + z) + multiset(y)
  {
    assert multiset(y + z) == multiset(y) + multiset(z);
    assert multiset(x + (y + z)) == multiset(x) + multiset(y + z);
    assert multiset(x + z) == multiset(x) + multiset(z);
  }

  lemma AroundAt<T>(s: seq<T>, i: nat)
    requires i < |s|
    ensures s == s[..i] + ([s[i]] + s[i + 1..])
  {
  }

  lemma RemoveAt<T>(s: seq<T>, i: nat)
    requires i < |s|
    ensures multiset(s) == multiset(Without(s, i)) + multiset{s[i]}
    ensures multiset(Without(s, i)) == multiset(s) - multiset{s[i]}
  {
    assert s == s[..i] + ([s[i]] + s[i + 1..]);
  }

  lemma TakeTwo<T>(s: seq<T>, x: T, y: T) returns (rest: seq<T>)
    requires x in s && y in s && x != y
    ensures multiset([x, y] + rest) == multiset(s) && multiset([y, x] + rest) == multiset(s)
  {
    var t := TakeOne(s, x);
    rest := TakeOne(t, y);
    assert [x, y] + rest == [x] + ([y] + rest) && [y, x] + rest == [y] + ([x] + rest);
  }

  lemma TakeOne<T>(s: seq<T>, x: T) returns (rest: seq<T>)
    requires x in s
    ensures multiset(s) == multiset{x} + multiset(rest)
    ensures forall y | y in s && y != x :: y in rest
  {
    var i :| 0 <= i < |s| && s[i] == x;
    RemoveAt(s, i);
    rest := Without(s, i);
    forall y | y in s && y != x ensures y in rest {
      var j :| 0 <= j < |s| && s[j] == y;
      assert rest[if j < i then j else j - 1] == y;
    }
  }

  lemma WithoutPermuted<T>(s: seq<T>, t: seq<T>, i: nat)
    requires multiset(s) == multiset(t) && s != [] && i < |t| && t[i] == s[0]
    ensures multiset(Without(s, 0)) == multiset(Without(t, i))
  {
    RemoveAt(s, 0);
    RemoveAt(t, i);
  }

  lemma SameElements<T>(s: seq<T>, t: seq<T>)
    requires multiset(s) == multiset(t)
    ensures forall x :: x in s <==> x in t
  {
    assert forall x :: x in s <==> x in multiset(s);
    assert forall x :: x in t <==> x in multiset(t);
  }

  lemma SideBySide<T>(x: T, y: T, a: seq<T>, b: seq<T>)
    ensures a + [y] + b == a + ([y] + b) && a + [x] + ([y] + b) == a + [x, y] + b
  {
  }

  // ---- mapping ----

  function Map<A, B>(s: seq<A>, f: A -> B): (r: seq<B>)
    ensures |r| == |s|
  {
    seq(|s|, i requires 0 <= i < |s| => f(s[i]))
  }

  lemma MapCons<A, B>(x: A, s: seq<A>, f: A -> B)
    ensures Map([x] + s, f) == [f(x)] + Map(s, f)
  {
  }

  lemma MapTail<A, B>(s: seq<A>, f: A -> B)
    requires s != []
    ensures Map(s, f)[0] == f(s[0]) && Map(s, f)[1..] == Map(s[1..], f)
  {
  }

  lemma MapPair<A, B>(a: seq<A>, x: A, y: A, b: seq<A>, f: A -> B)
    ensures Map(a + [x, y] + b, f) == Map(a, f) + [f(x), f(y)] + Map(b, f)
  {
  }

  lemma MapRemoved<A, B>(s: seq<A>, i: nat, f: A -> B)
    requires i < |s|
    ensures multiset(Map(s, f)) == multiset(Map(Without(s, i), f)) + multiset{f(s[i])}
  {
    RemoveAt(Map(s, f), i);
    assert Map(Without(s, i), f) == Without(Map(s, f), i);
  }

  // Mapping respects rearrangement.
  lemma {:induction false} MapPermuted<A, B>(s: seq<A>, t: seq<A>, f: A -> B)
    requires multiset(s) == multiset(t)
    ensures multiset(Map(s, f)) == multiset(Map(t, f))
    decreases |s|
  {
    assert |s| == |multiset(s)| == |multiset(t)| == |t|;
    if s != [] {
      assert s[0] in multiset(t);
      var i :| 0 <= i < |t| && t[i] == s[0];
      WithoutPermuted(s, t, i);
      MapPermuted(Without(s, 0), Without(t, i), f);
      MapRemoved(s, 0, f);
      MapRemoved(t, i, f);
    }
  }

  // The lists that `f` gives for the elements, one after the other.
  function Each<K, T>(ks: seq<K>, f: K -> seq<T>): seq<T> {
    if ks == [] then [] else Each(ks[..|ks| - 1], f) + f(ks[|ks| - 1])
  }

  lemma EachSnoc<K, T>(ks: seq<K>, k: K, f: K -> seq<T>)
    ensures Each(ks + [k], f) == Each(ks, f) + f(k)
  {
    assert (ks + [k])[..|ks|] == ks;
  }

  lemma {:induction false} EachMeans<K, T>(ks: seq<K>, f: K -> seq<T>, x: T)
    ensures x in Each(ks, f) <==> exists k | k in ks :: x in f(k)
    decreases |ks|
  {
    if ks != [] {
      var init, k := ks[..|ks| - 1], ks[|ks| - 1];
      EachMeans(init, f, x);
      assert ks == init + [k];
    }
  }

  lemma {:induction false} EachAppend<K, T>(s: seq<K>, t: seq<K>, f: K -> seq<T>)
    ensures Each(s + t, f) == Each(s, f) + Each(t, f)
    decreases |t|
  {
    if t == [] {
      assert s + t == s;
    } else {
      var init, k := t[..|t| - 1], t[|t| - 1];
      LastApart(s, t);
      EachAppend(s, init, f);
      EachSnoc(s + init, k, f);
      EachSnoc(init, k, f);
    }
  }

  lemma EachAround<K, T>(a: seq<K>, k: K, b: seq<K>, f: K -> seq<T>)
    ensures Each(a + ([k] + b), f) == Each(a, f) + (f(k) + Each(b, f))
  {
    EachAppend(a + [k], b, f);
    EachSnoc(a, k, f);
    assert a + ([k] + b) == a + [k] + b;
  }

  lemma EachMiddleOut<K, T>(a: seq<K>, k: K, b: seq<K>, f: K -> seq<T>)
    ensures multiset(Each(a + ([k] + b), f)) == multiset(Each(a + b, f)) + multiset(f(k))
  {
    EachAround(a, k, b, f);
    EachAppend(a, b, f);
    MiddleOut(Each(a, f), f(k), Each(b, f));
  }

  lemma EachRemoved<K, T>(s: seq<K>, i: nat, f: K -> seq<T>)
    requires i < |s|
    ensures multiset(Each(s, f)) == multiset(Each(Without(s, i), f)) + multiset(f(s[i]))
  {
    AroundAt(s, i);
    EachMiddleOut(s[..i], s[i], s[i + 1..], f);
  }

  lemma {:induction false} EachPermuted<K, T>(s: seq<K>, t: seq<K>, f: K -> seq<T>)
    requires multiset(s) == multiset(t)
    ensures multiset(Each(s, f)) == multiset(Each(t, f))
    decreases |s|
  {
    assert |s| == |multiset(s)| == |multiset(t)| == |t|;
    if s != [] {
      assert s[0] in multiset(t);
      var i :| 0 <= i < |t| && t[i] == s[0];
      WithoutPermuted(s, t, i);
      EachPermuted(Without(s, 0), Without(t, i), f);
      EachRemoved(s, 0, f);
      EachRemoved(t, i, f);
    }
  }

  // ---- filtering ----

  function Filter<T>(s: seq<T>, p: T -> bool): seq<T> {
    if s == [] then [] else Filter(s[..|s| - 1], p) + if p(s[|s| - 1]) then [s[|s| - 1]] else []
  }

  lemma {:induction false} FilterMeans<T>(s: seq<T>, p: T -> bool, x: T)
    ensures x in Filter(s, p) <==> x in s && p(x)
    decreases |s|
  {
    if s != [] {
      FilterMeans(s[..|s| - 1], p, x);
      assert s == s[..|s| - 1] + [s[|s| - 1]];
    }
  }

  function Both<T>(p: T -> bool, q: T -> bool): T -> bool {
    (x: T) => p(x) && q(x)
  }

  lemma FilterSnoc<T>(s: seq<T>, x: T, p: T -> bool)
    ensures Filter(s + [x], p) == Filter(s, p) + if p(x) then [x] else []
  {
    assert (s + [x])[..|s|] == s;
  }

  // Filtering twice keeps what both filters keep.
  lemma {:induction false} FilterTwice<T>(s: seq<T>, p: T -> bool, q: T -> bool)
    ensures Filter(Filter(s, p), q) == Filter(s, Both(p, q))
    decreases |s|
  {
    if s != [] {
      var init, x := s[..|s| - 1], s[|s| - 1];
      assert s == init + [x];
      FilterTwice(init, p, q);
      FilterSnoc(init, x, p);
      FilterSnoc(init, x, Both(p, q));
      var kept := Filter(init, p);
      if p(x) {
        assert Filter(s, p) == kept + [x];
        FilterSnoc(kept, x, q);
      } else {
        assert Filter(s, p) == kept;
      }
    }
  }

  lemma {:induction false} FilterAppend<T>(s: seq<T>, t: seq<T>, p: T -> bool)
    ensures Filter(s + t, p) == Filter(s, p) + Filter(t, p)
    decreases |t|
  {
    if t == [] {
      assert s + t == s;
    } else {
      var init, x := t[..|t| - 1], t[|t| - 1];
      LastApart(s, t);
      FilterAppend(s, init, p);
      FilterSnoc(s + init, x, p);
      FilterSnoc(init, x, p);
    }
  }

  function Complement<T>(p: T -> bool): T -> bool {
    (x: T) => !p(x)
  }

  lemma SnocCount<T>(s: seq<T>, x: T)
    ensures multiset(s + [x]) == multiset(s) + multiset{x}
  {
  }

  lemma {:induction false} FilterSplits<T>(s: seq<T>, p: T -> bool)
    ensures multiset(Filter(s, p)) + multiset(Filter(s, Complement(p))) == multiset(s)
    decreases |s|
  {
    if s != [] {
      var init, x := s[..|s| - 1], s[|s| - 1];
      FilterSplits(init, p);
      assert s == init + [x];
      SnocCount(init, x);
      SnocCount(Filter(init, if p(x) then p else Complement(p)), x);
    }
  }

  lemma FilterMiddle<T>(a: seq<T>, x: T, b: seq<T>, p: T -> bool)
    ensures Filter(a + ([x] + b), p) == Filter(a, p) + (Filter([x], p) + Filter(b, p))
  {
    FilterAppend(a, [x] + b, p);
    FilterAppend([x], b, p);
  }

  lemma FilterOne<T>(x: T, p: T -> bool)
    ensures Filter([x], p) == if p(x) then [x] else []
  {
    var none: seq<T> := [];
    FilterSnoc(none, x, p);
    assert none + [x] == [x];
  }

  lemma FilterCons<T>(x: T, s: seq<T>, p: T -> bool)
    ensures Filter([x] + s, p) == (if p(x) then [x] else []) + Filter(s, p)
  {
    FilterAppend([x], s, p);
    FilterOne(x, p);
  }

  lemma FilterAround<T>(x: T, a: seq<T>, b: seq<T>, p: T -> bool)
    ensures Filter(a + [x] + b, p) == Filter(a, p) + (if p(x) then [x] else []) + Filter(b, p)
  {
    FilterAppend(a + [x], b, p);
    FilterSnoc(a, x, p);
  }

  lemma FilterPair<T>(a: seq<T>, x: T, y: T, b: seq<T>, p: T -> bool)
    requires p(x) && p(y)
    ensures Filter(a + [x, y] + b, p) == Filter(a, p) + [x, y] + Filter(b, p)
  {
    FilterAround(x, a, [y] + b, p);
    FilterCons(y, b, p);
    SideBySide(x, y, a, b);
    SideBySide(x, y, Filter(a, p), Filter(b, p));
  }

  lemma FilterKeeps<T>(s: seq<T>, p: T -> bool)
    ensures forall y | y in Filter(s, p) :: y in s
  {
    forall y | y in Filter(s, p) ensures y in s {
      FilterMeans(s, p, y);
    }
  }

  lemma FilterMiddleOut<T>(a: seq<T>, x: T, b: seq<T>, p: T -> bool)
    ensures multiset(Filter(a + ([x] + b), p)) == multiset(Filter(a + b, p)) + multiset(Filter([x], p))
  {
    FilterMiddle(a, x, b, p);
    FilterAppend(a, b, p);
    MiddleOut(Filter(a, p), Filter([x], p), Filter(b, p));
  }

  lemma FilterRemoved<T>(s: seq<T>, i: nat, p: T -> bool)
    requires i < |s|
    ensures multiset(Filter(s, p))
         == multiset(Filter(Without(s, i), p)) + if p(s[i]) then multiset{s[i]} else multiset{}
  {
    AroundAt(s, i);
    FilterMiddleOut(s[..i], s[i], s[i + 1..], p);
    FilterOne(s[i], p);
  }

  lemma {:induction false} FilterPermuted<T>(s: seq<T>, t: seq<T>, p: T -> bool)
    requires multiset(s) == multiset(t)
    ensures multiset(Filter(s, p)) == multiset(Filter(t, p))
    decreases |s|
  {
    assert |s| == |multiset(s)| == |multiset(t)| == |t|;
    if s != [] {
      assert s[0] in multiset(t);
      var i :| 0 <= i < |t| && t[i] == s[0];
      WithoutPermuted(s, t, i);
      FilterPermuted(Without(s, 0), Without(t, i), p);
      FilterRemoved(s, 0, p);
      FilterRemoved(t, i, p);
    }
  }

  lemma {:induction false} FilterSame<T>(s: seq<T>, p: T -> bool, q: T -> bool)
    requires forall i | 0 <= i < |s| :: p(s[i]) == q(s[i])
    ensures Filter(s, p) == Filter(s, q)
    decreases |s|
  {
    if s != [] {
      FilterSame(s[..|s| - 1], p, q);
    }
  }

  // ---- counting ----

  function Count<T>(s: seq<T>, p: T -> bool): nat {
    |Filter(s, p)|
  }

  lemma {:induction false} CountMonotone<T>(s: seq<T>, p: T -> bool, q: T -> bool)
    requires forall i | 0 <= i < |s| :: p(s[i]) ==> q(s[i])
    ensures Count(s, p) <= Count(s, q)
    decreases |s|
  {
    if s != [] {
      CountMonotone(s[..|s| - 1], p, q);
    }
  }

  lemma CountSnoc<T>(s: seq<T>, x: T, p: T -> bool)
    ensures Count(s + [x], p) == Count(s, p) + if p(x) then 1 else 0
  {
    FilterSnoc(s, x, p);
  }

  // A count depends on the multiset alone.
  lemma CountPermuted<T>(s: seq<T>, t: seq<T>, p: T -> bool)
    requires multiset(s) == multiset(t)
    ensures Count(s, p) == Count(t, p)
  {
    FilterPermuted(s, t, p);
    assert |multiset(Filter(s, p))| == |multiset(Filter(t, p))|;
  }

  // ---- lists without repetition ----

  predicate Distinct<T(==)>(s: seq<T>) {
    forall i, j | 0 <= i < j < |s| :: s[i] != s[j]
  }

  lemma {:induction false} DistinctCount<T>(s: seq<T>, x: T)
    requires Distinct(s)
    ensures multiset(s)[x] <= 1
    decreases |s|
  {
    if s != [] {
      var t := s[..|s| - 1];
      assert s == t + [s[|s| - 1]];
      DistinctCount(t, x);
      assert x in multiset(t) <==> x in t;
    }
  }
}
