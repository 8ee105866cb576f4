// The order of CQL values (crates/cgx-cql/src/value.rs): total and faithful to equality on values
// that hold no float, and not on mixed ones.
module ValueOrder {
  import opened Values
  import opened Strings

  datatype Ordering = Less | Equal | Greater

  function Flip(o: Ordering): Ordering {
    match o
    case Less => Greater
    case Equal => Equal
    case Greater => Less
  }

  function IntCmp(a: int, b: int): Ordering {
    if a < b then Less else if a == b then Equal else Greater
  }

  function StrCmp(a: string, b: string): Ordering {
    if a == b then Equal else if StrLeq(a, b) then Less else Greater
  }

  function SeqCmp(a: seq<nat>, b: seq<nat>): Ordering {
    if a == [] || b == [] then IntCmp(|a|, |b|)
    else if a[0] != b[0] then IntCmp(a[0], b[0])
    else SeqCmp(a[1..], b[1..])
  }

  function TypeRank(v: Value): nat {
    match v
    case Null => 0
    case Bool(_) => 1
    case Int(_) => 2
    case Float(_) => 3
    case Str(_) => 4
    case List(_) => 5
    case Node(_) => 6
    case Edge(_) => 7
    case Path(_, _) => 8
  }

  // ---- floats ----

  const TWO_53: nat := 0x20_0000_0000_0000

  // The spacing of floats at magnitude `m`.
  function Ulp(m: nat): (u: nat)
    ensures u > 0
  {
    if m < TWO_53 then 1 else 2 * Ulp(m / 2)
  }

  // Round to nearest, ties to even.
  function Rounded(m: nat): nat {
    var u := Ulp(m);
    var q, r := m / u, m % u;
    (if 2 * r < u || (2 * r == u && q % 2 == 0) then q else q + 1) * u
  }

  // `n as f64`.
  function AsFloat(n: int): F64 {
    if n >= 0 then Finite(Rounded(n) as real) else Finite(-(Rounded(-n) as real))
  }

  function RealCmp(a: real, b: real): Ordering {
    if a < b then Less else if a == b then Equal else Greater
  }

  // NaN last, otherwise by value.
  function FloatCmp(a: F64, b: F64): Ordering {
    match (a, b)
    case (NaN, NaN) => Equal
    case (NaN, _) => Greater
    case (_, NaN) => Less
    case (Inf(x), Inf(y)) => if x == y then Equal else if x then Less else Greater
    case (Inf(x), _) => if x then Less else Greater
    case (_, Inf(y)) => if y then Greater else Less
    case (Finite(x), Finite(y)) => RealCmp(x, y)
  }

  // ---- values ----

  function Compare(a: Value, b: Value): Ordering
    decreases a
  {
    match (a, b)
    case (Int(x), Int(y)) => IntCmp(x, y)
    case (Float(x), Float(y)) => FloatCmp(x, y)
    case (Int(x), Float(y)) => FloatCmp(AsFloat(x), y)
    case (Float(x), Int(y)) => FloatCmp(x, AsFloat(y))
    case (Bool(x), Bool(y)) => IntCmp(if x then 1 else 0, if y then 1 else 0)
    case (Str(x), Str(y)) => StrCmp(x, y)
    case (List(x), List(y)) => ListCmp(x, y)
    case (Node(x), Node(y)) => IntCmp(x, y)
    case (Edge(x), Edge(y)) => IntCmp(x, y)
    case (Path(n, e), Path(m, f)) => if SeqCmp(n, m) != Equal then SeqCmp(n, m) else SeqCmp(e, f)
    case _ => IntCmp(TypeRank(a), TypeRank(b))
  }

  function ListCmp(x: seq<Value>, y: seq<Value>): Ordering
    decreases x
  {
    if x == [] || y == [] then IntCmp(|x|, |y|)
    else
      var o := Compare(x[0], y[0]);
      if o != Equal then o else ListCmp(x[1..], y[1..])
  }

  predicate FloatFree(v: Value) {
    match v
    case Float(_) => false
    case List(items) => forall i | 0 <= i < |items| :: FloatFree(items[i])
    case _ => true
  }

  predicate AllFloatFree(vs: seq<Value>) {
    forall i | 0 <= i < |vs| :: FloatFree(vs[i])
  }

  lemma {:induction false} SeqCmpLaws(a: seq<nat>, b: seq<nat>)
    ensures SeqCmp(b, a) == Flip(SeqCmp(a, b))
    ensures SeqCmp(a, b) == Equal <==> a == b
    decreases |a|
  {
    if a != [] && b != [] {
      assert a == [a[0]] + a[1..] && b == [b[0]] + b[1..];
      if a[0] == b[0] {
        SeqCmpLaws(a[1..], b[1..]);
      }
    }
  }

  lemma {:induction false} SeqCmpTransitive(a: seq<nat>, b: seq<nat>, c: seq<nat>)
    requires SeqCmp(a, b) != Greater && SeqCmp(b, c) != Greater
    ensures SeqCmp(a, c) != Greater
    decreases |a|
  {
    if a != [] && b != [] && c != [] && a[0] == b[0] == c[0] {
      SeqCmpTransitive(a[1..], b[1..], c[1..]);
    }
  }

  // Comparing the other way round flips the result, and only equal values compare equal.
  lemma {:induction false} CompareLaws(a: Value, b: Value)
    requires FloatFree(a) && FloatFree(b)
    ensures Compare(b, a) == Flip(Compare(a, b))
    ensures Compare(a, b) == Equal <==> a == b
    decreases a
  {
    match (a, b) {
      case (Str(x), Str(y)) => StrTotal(x, y);
      case (List(x), List(y)) => ListLaws(x, y);
      case (Path(n, e), Path(m, f)) =>
        SeqCmpLaws(n, m);
        SeqCmpLaws(e, f);
      case _ =>
    }
  }

  lemma {:induction false} ListLaws(x: seq<Value>, y: seq<Value>)
    requires AllFloatFree(x) && AllFloatFree(y)
    ensures ListCmp(y, x) == Flip(ListCmp(x, y))
    ensures ListCmp(x, y) == Equal <==> x == y
    decreases x
  {
    if x != [] && y != [] {
      assert x == [x[0]] + x[1..] && y == [y[0]] + y[1..];
      CompareLaws(x[0], y[0]);
      ListLaws(x[1..], y[1..]);
    }
  }

  lemma {:induction false} CompareTransitive(a: Value, b: Value, c: Value)
    requires FloatFree(a) && FloatFree(b) && FloatFree(c)
    requires Compare(a, b) != Greater && Compare(b, c) != Greater
    ensures Compare(a, c) != Greater
    decreases a
  {
    match (a, b, c) {
      case (Str(x), Str(y), Str(z)) =>
        StrTotal(x, y);
        StrTotal(y, z);
        StrTotal(x, z);
        if StrLeq(x, y) && StrLeq(y, z) {
          StrTransitive(x, y, z);
        }
      case (List(x), List(y), List(z)) => ListTransitive(x, y, z);
      case (Path(n, e), Path(m, f), Path(o, h)) =>
        SeqCmpLaws(n, m);
        SeqCmpLaws(m, o);
        SeqCmpLaws(n, o);
        SeqCmpTransitive(n, m, o);
        if n == m == o {
          SeqCmpTransitive(e, f, h);
        }
      case _ =>
    }
  }

  lemma {:induction false} ListTransitive(x: seq<Value>, y: seq<Value>, z: seq<Value>)
    requires AllFloatFree(x) && AllFloatFree(y) && AllFloatFree(z)
    requires ListCmp(x, y) != Greater && ListCmp(y, z) != Greater
    ensures ListCmp(x, z) != Greater
    decreases x
  {
    if x != [] && y != [] && z != [] {
      CompareLaws(x[0], y[0]);
      CompareLaws(y[0], z[0]);
      CompareLaws(x[0], z[0]);
      CompareTransitive(x[0], y[0], z[0]);
      if x[0] == y[0] == z[0] {
        ListTransitive(x[1..], y[1..], z[1..]);
      }
    }
  }
}
