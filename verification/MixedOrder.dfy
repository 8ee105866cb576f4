// The order of CQL values with floats among them (crates/cgx-cql/src/value.rs, compare): exactly
// when "compares equal" is equality, and exactly when the comparison is an order. Both fail only
// where an integer meets the float it rounds to, or, for equality, NaN meets NaN.
module MixedOrder {
  import opened Values
  import opened Strings
  import opened ValueOrder

  // ---- equality ----

  // The derived equality of values: NaN is unlike itself.
  predicate Same(a: Value, b: Value) {
    match (a, b)
    case (Float(x), Float(y)) => x == y && !x.NaN?
    case (List(x), List(y)) => |x| == |y| && forall i | 0 <= i < |x| :: Same(x[i], y[i])
    case _ => a == b
  }

  // An integer and the float it rounds to, or two NaNs.
  predicate ScalarClash(a: Value, b: Value) {
    match (a, b)
    case (Int(n), Float(f)) => AsFloat(n) == f
    case (Float(f), Int(n)) => AsFloat(n) == f
    case (Float(f), Float(g)) => f.NaN? && g.NaN?
    case _ => false
  }

  predicate Alike(a: Value, b: Value) {
    match (a, b)
    case (List(x), List(y)) => |x| == |y| && forall i | 0 <= i < |x| :: Alike(x[i], y[i])
    case _ => Same(a, b) || ScalarClash(a, b)
  }

  // The same but for clashing scalars, at least one pair of which there is.
  predicate Clash(a: Value, b: Value) {
    match (a, b)
    case (List(x), List(y)) => Alike(a, b) && exists i | 0 <= i < |x| :: i < |y| && Clash(x[i], y[i])
    case _ => ScalarClash(a, b)
  }

  lemma {:induction false} AlikeLaws(a: Value, b: Value)
    ensures Alike(a, b) <==> Same(a, b) || Clash(a, b)
    ensures !(Same(a, b) && Clash(a, b))
    decreases a
  {
    if a.List? && b.List? && |a.items| == |b.items| {
      var x, y := a.items, b.items;
      forall i | 0 <= i < |x|
        ensures Alike(x[i], y[i]) <==> Same(x[i], y[i]) || Clash(x[i], y[i])
        ensures !(Same(x[i], y[i]) && Clash(x[i], y[i]))
      {
        AlikeLaws(x[i], y[i]);
      }
    }
  }

  lemma {:induction false} EqualIsAlike(a: Value, b: Value)
    ensures Compare(a, b) == Equal <==> Alike(a, b)
    decreases a
  {
    match (a, b) {
      case (Str(x), Str(y)) => StrTotal(x, y);
      case (List(x), List(y)) => EqualLists(x, y);
      case (Path(n, e), Path(m, f)) =>
        SeqCmpLaws(n, m);
        SeqCmpLaws(e, f);
      case _ =>
    }
  }

  lemma {:induction false} EqualLists(x: seq<Value>, y: seq<Value>)
    ensures ListCmp(x, y) == Equal <==> |x| == |y| && forall i | 0 <= i < |x| :: Alike(x[i], y[i])
    decreases x
  {
    if x != [] && y != [] {
      EqualIsAlike(x[0], y[0]);
      EqualLists(x[1..], y[1..]);
      if ListCmp(x, y) == Equal {
        forall i | 0 <= i < |x| ensures Alike(x[i], y[i]) {
          if i > 0 {
            assert Alike(x[1..][i - 1], y[1..][i - 1]);
          }
        }
      }
      if |x| == |y| && forall i | 0 <= i < |x| :: Alike(x[i], y[i]) {
        forall i | 0 <= i < |x[1..]| ensures Alike(x[1..][i], y[1..][i]) {
          assert Alike(x[i + 1], y[i + 1]);
        }
      }
    }
  }

  // Comparing equal is being equal, except on clashing values.
  lemma EqualExactly(a: Value, b: Value)
    ensures (Compare(a, b) == Equal <==> Same(a, b)) <==> !Clash(a, b)
  {
    EqualIsAlike(a, b);
    AlikeLaws(a, b);
  }

  // ---- rounding ----

  lemma {:induction false} UlpBounds(m: nat)
    ensures m < TWO_53 * Ulp(m)
    ensures Ulp(m) > 1 ==> 2 * m >= TWO_53 * Ulp(m)
    decreases m
  {
    if m >= TWO_53 {
      UlpBounds(m / 2);
      var h, u := m / 2, Ulp(m / 2);
      assert h <= TWO_53 * u - 1 && 2 * h <= m <= 2 * h + 1;
      assert TWO_53 * (2 * u) == 2 * (TWO_53 * u);
    }
  }

  lemma {:induction false} UlpRises(m: nat, n: nat)
    requires m <= n
    ensures Ulp(m) == Ulp(n) || 2 * Ulp(m) <= Ulp(n)
    decreases n
  {
    if m >= TWO_53 {
      UlpRises(m / 2, n / 2);
    }
  }

  function Nearest(q: nat, r: nat, u: nat): nat {
    if 2 * r < u || (2 * r == u && q % 2 == 0) then q else q + 1
  }

  // `a` times `u`, by repeated addition, so that the steps below stay linear.
  function Multiple(a: nat, u: nat): nat {
    if a == 0 then 0 else u + Multiple(a - 1, u)
  }

  lemma {:induction false} MultipleIs(a: nat, u: nat)
    ensures Multiple(a, u) == a * u
    decreases a
  {
    if a > 0 {
      MultipleIs(a - 1, u);
    }
  }

  lemma {:induction false} MultipleRises(a: nat, b: nat, u: nat)
    requires a <= b
    ensures Multiple(a, u) <= Multiple(b, u)
    decreases b
  {
    if a < b {
      MultipleRises(a, b - 1, u);
    }
  }

  lemma RoundedIs(m: nat) returns (q: nat, r: nat)
    ensures m == Multiple(q, Ulp(m)) + r && r < Ulp(m)
    ensures Rounded(m) == Multiple(Nearest(q, r, Ulp(m)), Ulp(m))
  {
    var u := Ulp(m);
    q, r := m / u, m % u;
    MultipleIs(q, u);
    MultipleIs(Nearest(q, r, u), u);
  }

  lemma NearestRises(m: nat, n: nat, q: nat, r: nat, p: nat, s: nat, u: nat)
    requires m == Multiple(q, u) + r && n == Multiple(p, u) + s && r < u && s < u && m <= n
    ensures Multiple(Nearest(q, r, u), u) <= Multiple(Nearest(p, s, u), u)
  {
    if q > p {
      MultipleRises(p + 1, q, u);
    }
    MultipleRises(Nearest(q, r, u), Nearest(p, s, u), u);
  }

  // Rounding stays at or below a multiple of the spacing that the number is below, and at or above
  // one that it has reached.
  lemma NearestWithin(m: nat, q: nat, r: nat, u: nat, k: nat)
    requires m == Multiple(q, u) + r && r < u
    ensures m < Multiple(k, u) ==> Multiple(Nearest(q, r, u), u) <= Multiple(k, u)
    ensures Multiple(k, u) <= m ==> Multiple(k, u) <= Multiple(Nearest(q, r, u), u)
  {
    if q >= k {
      MultipleRises(k, q, u);
      MultipleRises(q, Nearest(q, r, u), u);
    } else {
      MultipleRises(q + 1, k, u);
      MultipleRises(Nearest(q, r, u), k, u);
    }
  }

  lemma RoundedRises(m: nat, n: nat)
    requires m <= n
    ensures Rounded(m) <= Rounded(n)
  {
    var u, v := Ulp(m), Ulp(n);
    var q, r := RoundedIs(m);
    var p, s := RoundedIs(n);
    UlpRises(m, n);
    if u == v {
      NearestRises(m, n, q, r, p, s, u);
    } else {
      UlpBounds(m);
      UlpBounds(n);
      MultipleIs(TWO_53, u);
      MultipleIs(TWO_53 / 2, v);
      NearestWithin(m, q, r, u, TWO_53);
      NearestWithin(n, p, s, v, TWO_53 / 2);
    }
  }

  lemma AsFloatRises(m: int, n: int)
    requires m <= n
    ensures FloatCmp(AsFloat(m), AsFloat(n)) != Greater
  {
    if m >= 0 {
      RoundedRises(m, n);
    } else if n < 0 {
      RoundedRises(-n, -m);
    }
  }

  // ---- order ----

  ghost predicate TransitiveOn(s: iset<Value>) {
    forall a, b, c | a in s && b in s && c in s && Compare(a, b) != Greater && Compare(b, c) != Greater ::
      Compare(a, c) != Greater
  }

  // The items of a list belong with it.
  ghost predicate Closed(s: iset<Value>) {
    forall v, i | v in s && v.List? && 0 <= i < |v.items| :: v.items[i] in s
  }

  // No float among the values is what two of the integers round to.
  ghost predicate Unconfused(s: iset<Value>) {
    forall m, n, f | Int(m) in s && Int(n) in s && Float(f) in s && AsFloat(m) == f && AsFloat(n) == f :: m == n
  }

  // Comparing the other way round flips the result, on all values.
  lemma {:induction false} CompareFlips(a: Value, b: Value)
    ensures Compare(b, a) == Flip(Compare(a, b))
    decreases a
  {
    match (a, b) {
      case (Str(x), Str(y)) => StrTotal(x, y);
      case (List(x), List(y)) => ListFlips(x, y);
      case (Path(n, e), Path(m, f)) =>
        SeqCmpLaws(n, m);
        SeqCmpLaws(e, f);
      case _ =>
    }
  }

  lemma {:induction false} ListFlips(x: seq<Value>, y: seq<Value>)
    ensures ListCmp(y, x) == Flip(ListCmp(x, y))
    decreases x
  {
    if x != [] && y != [] {
      CompareFlips(x[0], y[0]);
      ListFlips(x[1..], y[1..]);
    }
  }

  predicate Number(v: Value) {
    v.Int? || v.Float?
  }

  // Numbers form one class; otherwise the classes are the types.
  function Class(v: Value): nat {
    if v.Float? then 2 else TypeRank(v)
  }

  lemma ClassDecides(a: Value, b: Value)
    requires Class(a) != Class(b)
    ensures Compare(a, b) == IntCmp(Class(a), Class(b))
  {
  }

  lemma NumbersTransitive(a: Value, b: Value, c: Value)
    requires Number(a) && Number(b) && Number(c)
    requires a.Int? && b.Float? && c.Int? && AsFloat(a.n) == b.f && AsFloat(c.n) == b.f ==> a == c
    requires Compare(a, b) != Greater && Compare(b, c) != Greater
    ensures Compare(a, c) != Greater
  {
    if a.Int? && b.Int? && a.n <= b.n {
      AsFloatRises(a.n, b.n);
    }
    if b.Int? && c.Int? && b.n <= c.n {
      AsFloatRises(b.n, c.n);
    }
    if a.Int? && c.Int? && a.n > c.n {
      AsFloatRises(c.n, a.n);
    }
  }

  function Weight(v: Value): nat {
    if v.List? then 1 + WeightOf(v.items) else 0
  }

  function WeightOf(vs: seq<Value>): nat {
    if vs == [] then 0 else Weight(vs[0]) + WeightOf(vs[1..])
  }

  lemma {:induction false} TransitiveIn(s: iset<Value>, a: Value, b: Value, c: Value)
    requires Closed(s) && Unconfused(s) && a in s && b in s && c in s
    requires Compare(a, b) != Greater && Compare(b, c) != Greater
    ensures Compare(a, c) != Greater
    decreases Weight(a) + Weight(b) + Weight(c), 0
  {
    if Class(a) != Class(b) {
      ClassDecides(a, b);
    }
    if Class(b) != Class(c) {
      ClassDecides(b, c);
    }
    if Class(a) != Class(c) {
      ClassDecides(a, c);
    } else if Class(a) == Class(b) {
      if Number(a) {
        NumbersTransitive(a, b, c);
      } else if a.List? {
        ListsTransitive(s, a.items, b.items, c.items);
      } else {
        CompareTransitive(a, b, c);
      }
    }
  }

  lemma {:induction false} ListsTransitive(s: iset<Value>, x: seq<Value>, y: seq<Value>, z: seq<Value>)
    requires Closed(s) && Unconfused(s)
    requires forall v | v in x || v in y || v in z :: v in s
    requires ListCmp(x, y) != Greater && ListCmp(y, z) != Greater
    ensures ListCmp(x, z) != Greater
    decreases WeightOf(x) + WeightOf(y) + WeightOf(z), 2, |x|
  {
    if x != [] && y != [] && z != [] {
      var a, b, c := x[0], y[0], z[0];
      HeadsTransitive(s, a, b, c);
      if Compare(a, b) == Equal && Compare(b, c) == Equal {
        ListsTransitive(s, x[1..], y[1..], z[1..]);
      }
    }
  }

  // Transitivity, and that a strict step stays strict.
  lemma {:induction false} HeadsTransitive(s: iset<Value>, a: Value, b: Value, c: Value)
    requires Closed(s) && Unconfused(s) && a in s && b in s && c in s
    requires Compare(a, b) != Greater && Compare(b, c) != Greater
    ensures Compare(a, c) != Greater
    ensures Compare(a, c) == Equal ==> Compare(a, b) == Equal && Compare(b, c) == Equal
    decreases Weight(a) + Weight(b) + Weight(c), 1
  {
    TransitiveIn(s, a, b, c);
    CompareFlips(a, b);
    CompareFlips(b, c);
    CompareFlips(a, c);
    if Compare(a, c) == Equal {
      TransitiveIn(s, c, a, b);
      TransitiveIn(s, b, c, a);
    }
  }

  // On values and their items, the comparison is transitive exactly when no float is confused.
  lemma OrderExactly(s: iset<Value>)
    requires Closed(s)
    ensures TransitiveOn(s) <==> Unconfused(s)
  {
    if Unconfused(s) {
      forall a, b, c | a in s && b in s && c in s && Compare(a, b) != Greater && Compare(b, c) != Greater
        ensures Compare(a, c) != Greater
      {
        TransitiveIn(s, a, b, c);
      }
    } else {
      var m, n, f :| Int(m) in s && Int(n) in s && Float(f) in s && AsFloat(m) == f && AsFloat(n) == f && m != n;
      var a, b := if m < n then m else n, if m < n then n else m;
      assert Compare(Int(b), Float(f)) == Equal && Compare(Float(f), Int(a)) == Equal;
      assert Compare(Int(b), Int(a)) == Greater;
    }
  }

  // Two integers that one float is confused about, and that clash with it.
  lemma MixedIsNotAnOrder()
    ensures var a, b, f := Int(TWO_53), Int(TWO_53 + 1), Float(Finite(TWO_53 as real));
      && Clash(a, f) && Clash(b, f) && !Unconfused(iset{a, b, f}) && !TransitiveOn(iset{a, b, f})
  {
    assert Ulp(TWO_53 / 2) == 1 && Ulp(TWO_53) == 2;
    assert (TWO_53 + 1) / 2 == TWO_53 / 2 && Ulp(TWO_53 + 1) == 2;
    assert Rounded(TWO_53) == TWO_53;
    assert (TWO_53 + 1) % 2 == 1 && (TWO_53 / 2) % 2 == 0;
    assert Rounded(TWO_53 + 1) == TWO_53;
    var s := iset{Int(TWO_53), Int(TWO_53 + 1), Float(Finite(TWO_53 as real))};
    assert Int(TWO_53) in s && Int(TWO_53 + 1) in s && Float(Finite(TWO_53 as real)) in s;
    OrderExactly(s);
  }
}
