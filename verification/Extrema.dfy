// When MIN and MAX depend on the order of their group (crates/cgx-cql/src/eval.rs, eval_aggregate
// and aggregate_value_cmp). Confidence tokens compare by rank and other strings alphabetically, so
// among mixed strings there may be no extreme element, and then the first or last one met decides.
module Extrema {
  import opened Prelude
  import opened Values
  import opened Strings
  import opened ValueOrder
  import opened Sequences
  import opened Projection
  import opened Aggregates

  // ---- the order of elements ----

  lemma AggLaws(a: Free, b: Free)
    ensures AggCmp(b, a) == Flip(AggCmp(a, b))
    ensures AggCmp(a, b) == Equal <==> a == b
  {
    CompareLaws(a, b);
  }

  // `m` would never be displaced by `e`.
  predicate Wins(max: bool, m: Value, e: Value) {
    AggCmp(m, e) != if max then Less else Greater
  }

  predicate Extreme(max: bool, es: seq<Free>, m: Free) {
    m in es && forall e | e in es :: Wins(max, m, e)
  }

  ghost predicate HasExtreme(max: bool, es: seq<Free>) {
    exists m :: Extreme(max, es, m)
  }

  lemma {:induction false} PickedIn(max: bool, es: seq<Free>)
    requires es != []
    ensures Picked(max, es) in es
    decreases |es|
  {
    if |es| > 1 {
      PickedIn(max, es[..|es| - 1]);
    }
  }

  // An extreme element is the one that is picked.
  lemma {:induction false} PickedIsExtreme(max: bool, es: seq<Free>, m: Free)
    requires Extreme(max, es, m)
    ensures Picked(max, es) == m
    decreases |es|
  {
    var n := |es| - 1;
    assert es == es[..n] + [es[n]];
    assert es[n] in es;
    if n > 0 {
      AggLaws(m, es[n]);
      if m in es[..n] {
        PickedIsExtreme(max, es[..n], m);
      } else {
        var h := Picked(max, es[..n]);
        PickedIn(max, es[..n]);
        assert h in es && m == es[n];
        AggLaws(m, h);
      }
    }
  }

  lemma {:induction false} PickedAfter(max: bool, s: seq<Free>, t: seq<Free>)
    requires s != []
    ensures Picked(max, s + t) == Picked(max, s) || Picked(max, s + t) in t
    decreases |t|
  {
    if t == [] {
      assert s + t == s;
    } else {
      PickedAfter(max, s, t[..|t| - 1]);
      assert (s + t)[..|s + t| - 1] == s + t[..|t| - 1];
    }
  }

  lemma {:induction false} PickedOfSame(max: bool, s: seq<Free>, v: Free)
    requires s != [] && forall e | e in s :: e == v
    ensures Picked(max, s) == v
  {
    PickedIn(max, s);
  }

  lemma PickedSnoc(max: bool, s: seq<Free>, e: Free)
    requires s != [] && !Stays(max, Picked(max, s), e)
    ensures Picked(max, s + [e]) == e
  {
    assert (s + [e])[..|s|] == s;
  }

  // ---- which choices cannot see the order ----

  predicate IsPick(a: Aggregate) {
    (a.name.MinName? || a.name.MaxName?) && |a.args| == 1
  }

  function ElemsOf(a: Aggregate, s: seq<Binding>): seq<Free>
    requires IsPick(a)
  {
    Elems(a.args[0].eval, s)
  }

  lemma PickUnfold(a: Aggregate, s: seq<Binding>)
    requires IsPick(a)
    ensures Aggregated(a, s)
         == if AllValued(a.args[0].eval, s) then Some(Extremum(a.name.MaxName?, ElemsOf(a, s))) else None
  {
  }

  // With an extreme element among them, it is chosen in any order.
  lemma PickIsOrderBlind(a: Aggregate, s: seq<Binding>)
    requires IsPick(a) && (ElemsOf(a, s) == [] || HasExtreme(a.name.MaxName?, ElemsOf(a, s)))
    ensures OrderBlind(a, s)
  {
    var max, eval := a.name.MaxName?, a.args[0].eval;
    PickUnfold(a, s);
    forall t | multiset(t) == multiset(s) ensures Aggregated(a, t) == Aggregated(a, s) {
      PickUnfold(a, t);
      AllValuedPermuted(eval, s, t);
      EachPermuted(s, t, ElemsIn(eval));
      SamePick(max, Elems(eval, s), Elems(eval, t));
    }
  }

  lemma SamePick(max: bool, es: seq<Free>, fs: seq<Free>)
    requires multiset(es) == multiset(fs) && (es == [] || HasExtreme(max, es))
    ensures Extremum(max, es) == Extremum(max, fs)
  {
    assert |es| == |multiset(es)| == |multiset(fs)| == |fs|;
    if es != [] {
      var m :| Extreme(max, es, m);
      SameElements(es, fs);
      assert Extreme(max, fs, m);
      PickedIsExtreme(max, es, m);
      PickedIsExtreme(max, fs, m);
    }
  }

  predicate NoLists(eval: ArgFn, s: seq<Binding>) {
    forall b | b in s :: !ValueAt(eval)(b).List?
  }

  lemma ScalarElems(eval: ArgFn, s: seq<Binding>, v: Free)
    requires NoLists(eval, s)
    ensures v in Elems(eval, s) <==> v != Null && exists b :: b in s && ValueAt(eval)(b) == v
  {
    EachMeans(s, ElemsIn(eval), v);
    forall b | b in s ensures v in ElemsIn(eval)(b) <==> v != Null && ValueAt(eval)(b) == v {
      assert !ValueAt(eval)(b).List?;
    }
  }

  function HasValue(eval: ArgFn, v: Free): Binding -> bool {
    (b: Binding) => ValueAt(eval)(b) == v
  }

  // With no extreme element, whatever is chosen can be met first and displaced for good.
  lemma OtherPick(max: bool, eval: ArgFn, s: seq<Binding>) returns (t: seq<Binding>)
    requires NoLists(eval, s) && Elems(eval, s) != [] && !HasExtreme(max, Elems(eval, s))
    ensures multiset(t) == multiset(s) && Elems(eval, t) != []
    ensures Picked(max, Elems(eval, t)) != Picked(max, Elems(eval, s))
  {
    var r := Picked(max, Elems(eval, s));
    PickedIn(max, Elems(eval, s));
    var other := Displacer(max, eval, s, r);
    AggLaws(r, ValueAt(eval)(other));
    var front, rest := SetAside(eval, s, r, other);
    t := front + ([other] + rest);
    FrontElems(eval, s, front, r);
    ScalarElems(eval, rest, r);
    EachAround(front, other, rest, ElemsIn(eval));
    assert ElemsIn(eval)(other) == [ValueAt(eval)(other)];
    Displaced(max, Elems(eval, front), ValueAt(eval)(other), Elems(eval, rest), r);
  }

  lemma Displacer(max: bool, eval: ArgFn, s: seq<Binding>, r: Free) returns (other: Binding)
    requires NoLists(eval, s) && r in Elems(eval, s) && !HasExtreme(max, Elems(eval, s))
    ensures other in s && ValueAt(eval)(other) != Null && !Wins(max, r, ValueAt(eval)(other))
  {
    assert !Extreme(max, Elems(eval, s), r);
    var y :| y in Elems(eval, s) && !Wins(max, r, y);
    ScalarElems(eval, s, y);
    other :| other in s && ValueAt(eval)(other) == y;
  }

  // The bindings with value `r`, and all the others but one.
  lemma SetAside(eval: ArgFn, s: seq<Binding>, r: Free, other: Binding)
    returns (front: seq<Binding>, rest: seq<Binding>)
    requires NoLists(eval, s) && other in s && ValueAt(eval)(other) != r
    ensures front == Filter(s, HasValue(eval, r))
    ensures multiset(front + ([other] + rest)) == multiset(s)
    ensures NoLists(eval, rest) && forall b | b in rest :: ValueAt(eval)(b) != r
  {
    var same := HasValue(eval, r);
    front := Filter(s, same);
    var back := Filter(s, Complement(same));
    FilterSplits(s, same);
    FilterMeans(s, Complement(same), other);
    rest := TakeOne(back, other);
    forall b | b in rest ensures b in s && ValueAt(eval)(b) != r {
      assert b in multiset(back);
      FilterMeans(s, Complement(same), b);
    }
  }

  lemma Displaced(max: bool, fs: seq<Free>, y: Free, rs: seq<Free>, r: Free)
    requires fs != [] && (forall e | e in fs :: e == r) && !Wins(max, r, y) && r !in rs
    ensures Picked(max, fs + ([y] + rs)) != r
  {
    AggLaws(r, y);
    PickedOfSame(max, fs, r);
    PickedSnoc(max, fs, y);
    PickedAfter(max, fs + [y], rs);
    assert fs + ([y] + rs) == fs + [y] + rs;
  }

  lemma FrontElems(eval: ArgFn, s: seq<Binding>, front: seq<Binding>, r: Free)
    requires NoLists(eval, s) && r in Elems(eval, s)
    requires front == Filter(s, HasValue(eval, r))
    ensures Elems(eval, front) != [] && forall e | e in Elems(eval, front) :: e == r
  {
    var same := HasValue(eval, r);
    ScalarElems(eval, s, r);
    var b :| b in s && ValueAt(eval)(b) == r;
    FilterMeans(s, same, b);
    FilterKeeps(s, same);
    ScalarElems(eval, front, r);
    forall e | e in Elems(eval, front) ensures e == r {
      ScalarElems(eval, front, e);
      var c :| c in front && ValueAt(eval)(c) == e;
      FilterMeans(s, same, c);
    }
  }

  // Over values that are not lists, MIN and MAX see the order of their group exactly when there are
  // elements but no extreme one.
  lemma PickIsOrderBlindExactly(a: Aggregate, s: seq<Binding>)
    requires IsPick(a) && AllValued(a.args[0].eval, s) && NoLists(a.args[0].eval, s)
    ensures OrderBlind(a, s) <==> ElemsOf(a, s) == [] || HasExtreme(a.name.MaxName?, ElemsOf(a, s))
  {
    var max, eval := a.name.MaxName?, a.args[0].eval;
    if ElemsOf(a, s) == [] || HasExtreme(max, ElemsOf(a, s)) {
      PickIsOrderBlind(a, s);
    } else {
      var t := OtherPick(max, eval, s);
      AllValuedPermuted(eval, s, t);
      PickUnfold(a, s);
      PickUnfold(a, t);
      ShowsOrder(a, s, s, t);
    }
  }

  // ---- when there is an extreme element ----

  // Two confidence tokens and another string between them in the alphabet, the wrong way round.
  predicate Tangled(p: Value, q: Value, x: Value) {
    && Token(p) && Token(q) && x.Str? && !Token(x)
    && AggCmp(p, q) == Less && AggCmp(q, x) == Less && AggCmp(x, p) == Less
  }

  predicate Untangled(es: seq<Free>) {
    forall p, q, x | p in es && q in es && x in es :: !Tangled(p, q, x)
  }

  lemma AggTransitive(a: Free, b: Free, c: Free)
    requires !Tangled(a, b, c) && !Tangled(b, c, a) && !Tangled(c, a, b)
    requires AggCmp(a, b) != Greater && AggCmp(b, c) != Greater
    ensures AggCmp(a, c) != Greater
  {
    AggLaws(a, b);
    AggLaws(b, c);
    AggLaws(c, a);
    if !(Token(a) && Token(b)) && !(Token(b) && Token(c)) && !(Token(a) && Token(c)) {
      CompareTransitive(a, b, c);
    }
  }

  lemma {:induction false} UntangledHasExtreme(max: bool, es: seq<Free>) returns (m: Free)
    requires Untangled(es) && es != []
    ensures Extreme(max, es, m)
    decreases |es|
  {
    var n := |es| - 1;
    m := es[n];
    AggLaws(m, m);
    if n > 0 {
      assert es == es[..n] + [es[n]];
      var h := UntangledHasExtreme(max, es[..n]);
      AggLaws(h, m);
      if Wins(max, h, m) {
        m := h;
      } else {
        forall e | e in es ensures Wins(max, m, e) {
          if e in es[..n] {
            AggLaws(h, e);
            AggLaws(m, e);
            if max {
              AggTransitive(e, h, m);
            } else {
              AggTransitive(m, h, e);
            }
          }
        }
      }
    }
  }

  // No confidence token stands beside another string.
  predicate OneScale(es: seq<Free>) {
    (forall e | e in es :: !Token(e)) || (forall e | e in es && e.Str? :: Token(e))
  }

  lemma OneScaleHasExtreme(max: bool, es: seq<Free>) returns (m: Free)
    requires OneScale(es) && es != []
    ensures Extreme(max, es, m)
  {
    m := UntangledHasExtreme(max, es);
  }

  // ---- which values never show the order ----

  function OneValue(v: Free): Binding {
    map["x" := v]
  }

  function ReadX(): ArgFn {
    (b: Binding) => if "x" in b && FloatFree(b["x"]) then Some(b["x"]) else Some(Null)
  }

  lemma OneElem(v: Free)
    requires v.Str?
    ensures ValueAt(ReadX())(OneValue(v)) == v && ElemsIn(ReadX())(OneValue(v)) == [v]
  {
    assert OneValue(v)["x"] == v && ReadX()(OneValue(v)) == Some(v);
  }

  lemma EachOfThree<K, T>(a: K, b: K, c: K, f: K -> seq<T>)
    ensures Each([a, b, c], f) == f(a) + f(b) + f(c)
  {
    assert [a, b, c][..2] == [a, b] && [a, b][..1] == [a] && [a][..0] == [];
    assert Each([a], f) == f(a);
    assert Each([a, b], f) == f(a) + f(b);
  }

  lemma ThreeElems(p: Free, q: Free, x: Free)
    requires p.Str? && q.Str? && x.Str?
    ensures var s := [OneValue(p), OneValue(q), OneValue(x)];
      && Elems(ReadX(), s) == [p, q, x]
      && AllValued(ReadX(), s) && NoLists(ReadX(), s)
  {
    OneElem(p);
    OneElem(q);
    OneElem(x);
    EachOfThree(OneValue(p), OneValue(q), OneValue(x), ElemsIn(ReadX()));
    assert [p] + [q] + [x] == [p, q, x];
  }

  lemma TangleHasNoExtreme(max: bool, p: Free, q: Free, x: Free, es: seq<Free>)
    requires Tangled(p, q, x) && forall e :: e in es <==> e in [p, q, x]
    ensures !HasExtreme(max, es)
  {
    AggLaws(p, q);
    AggLaws(q, x);
    AggLaws(x, p);
    assert p in es && q in es && x in es;
  }

  function Choice(max: bool): Aggregate {
    Aggregate(if max then MaxName else MinName, [Arg(false, ReadX())])
  }

  lemma TangleShows(max: bool, p: Free, q: Free, x: Free)
    requires Tangled(p, q, x)
    ensures var s := [OneValue(p), OneValue(q), OneValue(x)];
      ElemsOf(Choice(max), s) == [p, q, x] && !OrderBlind(Choice(max), s)
  {
    ThreeElems(p, q, x);
    TangleHasNoExtreme(max, p, q, x, [p, q, x]);
    PickIsOrderBlindExactly(Choice(max), [OneValue(p), OneValue(q), OneValue(x)]);
  }

  // All elements, in lists or alone, are among `vs`.
  ghost predicate Draws(a: Aggregate, s: seq<Binding>, vs: iset<Free>)
    requires IsPick(a)
  {
    forall e | e in ElemsOf(a, s) :: e in vs
  }

  // MIN and MAX see no order on any group whose elements, in lists or alone, are among given values
  // exactly when no three of the values tangle.
  lemma ValuesDecideBlindness(max: bool, vs: iset<Free>)
    ensures (forall a, s | IsPick(a) && a.name.MaxName? == max && Draws(a, s, vs) :: OrderBlind(a, s))
       <==> forall p, q, x | p in vs && q in vs && x in vs :: !Tangled(p, q, x)
  {
    if p, q, x :| p in vs && q in vs && x in vs && Tangled(p, q, x) {
      TangleShows(max, p, q, x);
      assert Draws(Choice(max), [OneValue(p), OneValue(q), OneValue(x)], vs);
    } else {
      forall a, s | IsPick(a) && a.name.MaxName? == max && Draws(a, s, vs) ensures OrderBlind(a, s) {
        var es := ElemsOf(a, s);
        if es != [] {
          var m := UntangledHasExtreme(max, es);
        }
        PickIsOrderBlind(a, s);
      }
    }
  }

  // `certain`, `d` and `possible` displace each other in a circle.
  lemma MixedStringsHaveNoLeast()
    ensures !HasExtreme(false, [Str("certain"), Str("d"), Str("possible")])
    ensures Tangled(Str("possible"), Str("certain"), Str("d"))
  {
    assert StrLeq("certain", "d") && StrLeq("d", "possible") && !Token(Str("d"));
    TangleHasNoExtreme(false, Str("possible"), Str("certain"), Str("d"), [Str("certain"), Str("d"), Str("possible")]);
  }
}
