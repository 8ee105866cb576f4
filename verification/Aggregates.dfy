// Aggregates over a group of bindings (crates/cgx-cql/src/eval.rs, eval_aggregate): what they
// compute, and exactly which of them depend on the order their bindings come in.
module Aggregates {
  import opened Prelude
  import opened Values
  import opened ValueOrder
  import opened Sequences
  import opened Sorting
  import opened Projection

  type Free = v: Value | FloatFree(v) witness Null

  // How an expression evaluates over one binding; None is an evaluation error.
  type ArgFn = Binding -> Option<Free>

  // An argument; `star` marks `*`, which only `count` looks for.
  datatype Arg = Arg(star: bool, eval: ArgFn)

  datatype AggregateName = CountName | CollectName | MinName | MaxName

  datatype Aggregate = Aggregate(name: AggregateName, args: seq<Arg>)

  predicate AllValued(eval: ArgFn, bs: seq<Binding>) {
    forall i | 0 <= i < |bs| :: eval(bs[i]).Some?
  }

  function ValueAt(eval: ArgFn): Binding -> Free {
    (b: Binding) => if eval(b).Some? then eval(b).value else Null
  }

  predicate NotNull(v: Free) {
    v != Null
  }

  function Valued(eval: ArgFn): Binding -> bool {
    (b: Binding) => NotNull(ValueAt(eval)(b))
  }

  // ---- collect ----

  // By representative node, bindings without one first.
  predicate NodeLeq(a: Option<nat>, b: Option<nat>) {
    a.None? || (b.Some? && a.value <= b.value)
  }

  function ByNode(): (Binding, Binding) -> bool {
    (a: Binding, b: Binding) => NodeLeq(Representative(a), Representative(b))
  }

  function Collected(eval: ArgFn, bs: seq<Binding>): seq<Free> {
    NonNull(eval, Sort(bs, ByNode()))
  }

  function NonNull(eval: ArgFn, bs: seq<Binding>): seq<Free> {
    Map(Filter(bs, Valued(eval)), ValueAt(eval))
  }

  // ---- MIN and MAX ----

  function ItemsOf(v: Free): (r: seq<Free>)
    requires v.List?
  {
    seq(|v.items|, i requires 0 <= i < |v.items| => v.items[i])
  }

  // The elements one binding contributes: those of a list, or the value itself.
  function ElemsAt(v: Free): seq<Free> {
    if v.List? then Filter(ItemsOf(v), NotNull)
    else if v == Null then []
    else [v]
  }

  function Elems(eval: ArgFn, bs: seq<Binding>): seq<Free> {
    Each(bs, ElemsIn(eval))
  }

  function ElemsIn(eval: ArgFn): Binding -> seq<Free> {
    (b: Binding) => ElemsAt(ValueAt(eval)(b))
  }

  function ConfidenceRank(s: string): Option<nat> {
    if s == "possible" then Some(0)
    else if s == "probable" then Some(1)
    else if s == "certain" then Some(2)
    else None
  }

  predicate Token(v: Value) {
    v.Str? && ConfidenceRank(v.text).Some?
  }

  // Confidence tokens by rank, everything else by the value order.
  function AggCmp(a: Value, b: Value): Ordering {
    if Token(a) && Token(b) then IntCmp(ConfidenceRank(a.text).value, ConfidenceRank(b.text).value)
    else Compare(a, b)
  }

  // Whether `m` stays chosen when `e` comes up.
  predicate Stays(max: bool, m: Value, e: Value) {
    if max then AggCmp(m, e) == Greater else AggCmp(m, e) != Greater
  }

  // The running choice over the elements, first to last.
  function Picked(max: bool, es: seq<Free>): Free
    requires es != []
  {
    var n := |es| - 1;
    if n == 0 then es[0]
    else
      var m := Picked(max, es[..n]);
      if Stays(max, m, es[n]) then m else es[n]
  }

  function Extremum(max: bool, es: seq<Free>): Free {
    if es == [] then Null else Picked(max, es)
  }

  // ---- an aggregate over its group ----

  // None is an evaluation error, or a wrong number of arguments.
  function Aggregated(a: Aggregate, group: seq<Binding>): Option<Free> {
    if a.name.CountName? && (a.args == [] || a.args[0].star) then Some(Int(|group|))
    else if |a.args| != 1 || !AllValued(a.args[0].eval, group) then None
    else
      var eval := a.args[0].eval;
      match a.name
      case CountName => Some(Int(Count(group, Valued(eval))))
      case CollectName => Some(List(Collected(eval, group)))
      case MinName => Some(Extremum(false, Elems(eval, group)))
      case MaxName => Some(Extremum(true, Elems(eval, group)))
  }

  method EvalAggregate(a: Aggregate, group: seq<Binding>) returns (r: Option<Free>)
    ensures r == Aggregated(a, group)
  {
    if a.name.CountName? && (a.args == [] || a.args[0].star) {
      return Some(Int(|group|));
    }
    if |a.args| != 1 {
      return None;
    }
    match a.name
    case CountName => r := CountNotNull(a.args[0].eval, group);
    case CollectName => r := Collect(a.args[0].eval, group);
    case MinName => r := Pick(false, a.args[0].eval, group);
    case MaxName => r := Pick(true, a.args[0].eval, group);
  }

  method CountNotNull(eval: ArgFn, group: seq<Binding>) returns (r: Option<Free>)
    ensures r == if AllValued(eval, group) then Some(Int(Count(group, Valued(eval)))) else None
  {
    var n := 0;
    for i := 0 to |group|
      invariant AllValued(eval, group[..i]) && n == Count(group[..i], Valued(eval))
    {
      assert group[..i + 1][..i] == group[..i];
      var v := eval(group[i]);
      if v.None? {
        return None;
      }
      assert ValueAt(eval)(group[i]) == v.value;
      if v.value != Null {
        n := n + 1;
      }
    }
    assert group[..|group|] == group;
    return Some(Int(n));
  }

  method Collect(eval: ArgFn, group: seq<Binding>) returns (r: Option<Free>)
    ensures r == if AllValued(eval, group) then Some(List(Collected(eval, group))) else None
  {
    var ordered := Sort(group, ByNode());
    AllValuedPermuted(eval, group, ordered);
    var out := NotNullValues(eval, ordered);
    if out.None? {
      return None;
    }
    return Some(List(out.value));
  }

  method NotNullValues(eval: ArgFn, ordered: seq<Binding>) returns (r: Option<seq<Free>>)
    ensures r == if AllValued(eval, ordered) then Some(NonNull(eval, ordered)) else None
  {
    var out: seq<Free> := [];
    for i := 0 to |ordered|
      invariant AllValued(eval, ordered[..i]) && out == NonNull(eval, ordered[..i])
    {
      var v := eval(ordered[i]);
      if v.None? {
        return None;
      }
      NonNullSnoc(eval, ordered, i);
      if v.value != Null {
        out := out + [v.value];
      }
    }
    assert ordered[..|ordered|] == ordered;
    return Some(out);
  }

  method Pick(max: bool, eval: ArgFn, group: seq<Binding>) returns (r: Option<Free>)
    ensures r == if AllValued(eval, group) then Some(Extremum(max, Elems(eval, group))) else None
  {
    var elems: seq<Free> := [];
    for i := 0 to |group|
      invariant AllValued(eval, group[..i]) && elems == Elems(eval, group[..i])
    {
      assert group[..i + 1][..i] == group[..i];
      var v := eval(group[i]);
      if v.None? {
        return None;
      }
      assert ValueAt(eval)(group[i]) == v.value;
      elems := elems + ElemsAt(v.value);
    }
    assert group[..|group|] == group;
    if elems == [] {
      return Some(Null);
    }
    var chosen := Choose(max, elems);
    return Some(chosen);
  }

  // Keeps the choice until something displaces it.
  method Choose(max: bool, elems: seq<Free>) returns (chosen: Free)
    requires elems != []
    ensures chosen == Picked(max, elems)
  {
    chosen := elems[0];
    for i := 1 to |elems|
      invariant chosen == Picked(max, elems[..i])
    {
      assert elems[..i + 1][..i] == elems[..i];
      if !Stays(max, chosen, elems[i]) {
        chosen := elems[i];
      }
    }
    assert elems[..|elems|] == elems;
  }

  lemma NonNullSnoc(eval: ArgFn, bs: seq<Binding>, i: nat)
    requires i < |bs|
    ensures NonNull(eval, bs[..i + 1])
         == NonNull(eval, bs[..i]) + if Valued(eval)(bs[i]) then [ValueAt(eval)(bs[i])] else []
  {
    assert bs[..i + 1] == bs[..i] + [bs[i]];
    FilterSnoc(bs[..i], bs[i], Valued(eval));
  }

  lemma AllValuedPermuted(eval: ArgFn, s: seq<Binding>, t: seq<Binding>)
    requires multiset(s) == multiset(t)
    ensures AllValued(eval, s) <==> AllValued(eval, t)
  {
    SameElements(s, t);
    assert AllValued(eval, s) <==> forall b | b in s :: eval(b).Some?;
    assert AllValued(eval, t) <==> forall b | b in t :: eval(b).Some?;
  }

  // ---- which aggregates cannot see the order of their group ----

  ghost predicate OrderBlind(a: Aggregate, s: seq<Binding>) {
    forall t | multiset(t) == multiset(s) :: Aggregated(a, t) == Aggregated(a, s)
  }

  // No count sees it.
  lemma CountIsOrderBlind(a: Aggregate, s: seq<Binding>)
    requires a.name.CountName?
    ensures OrderBlind(a, s)
  {
    forall t | multiset(t) == multiset(s) ensures Aggregated(a, t) == Aggregated(a, s) {
      assert |t| == |multiset(t)| == |multiset(s)| == |s|;
      if |a.args| == 1 {
        AllValuedPermuted(a.args[0].eval, s, t);
        CountPermuted(t, s, Valued(a.args[0].eval));
      }
    }
  }

  // ---- collect ----

  // Bindings with the same representative node contribute the same value, or none.
  predicate TiesAgree(eval: ArgFn, s: seq<Binding>) {
    forall a, b | a in s && b in s && Representative(a) == Representative(b) ::
      Valued(eval)(a) && Valued(eval)(b) ==> ValueAt(eval)(a) == ValueAt(eval)(b)
  }

  // What a binding puts into the list, and where.
  datatype Placed = Placed(rep: Option<nat>, value: Free)

  function PlacedAt(eval: ArgFn): Binding -> Placed {
    (b: Binding) => Placed(Representative(b), ValueAt(eval)(b))
  }

  predicate PlacedLeq(a: Placed, b: Placed) {
    NodeLeq(a.rep, b.rep)
  }

  lemma NodeOrder()
    ensures Preorder(ByNode()) && Preorder(PlacedLeq)
  {
  }

  // The list is the valued bindings' values, sorted by node.
  lemma CollectedIsSorted(eval: ArgFn, s: seq<Binding>)
    ensures Collected(eval, s)
         == Map(Sort(Map(Filter(s, Valued(eval)), PlacedAt(eval)), PlacedLeq), (p: Placed) => p.value)
  {
    NodeOrder();
    var kept, at, value := Filter(s, Valued(eval)), PlacedAt(eval), (p: Placed) => p.value;
    FilterSort(s, Valued(eval), ByNode());
    assert Collected(eval, s) == Map(Sort(kept, ByNode()), ValueAt(eval));
    SortThrough(kept, eval);
    SortMap(kept, at, PlacedLeq);
    assert Map(Map(Sort(kept, ByNode()), at), value) == Map(Sort(kept, ByNode()), ValueAt(eval));
  }

  lemma SortThrough(s: seq<Binding>, eval: ArgFn)
    ensures Sort(s, ByNode()) == Sort(s, Through(PlacedAt(eval), PlacedLeq))
  {
    var leq := Through(PlacedAt(eval), PlacedLeq);
    forall x: Binding, y: Binding ensures ByNode()(x, y) == leq(x, y) {
      assert leq(x, y) == PlacedLeq(PlacedAt(eval)(x), PlacedAt(eval)(y));
    }
    SortSame(s, ByNode(), leq);
  }

  lemma AgreeingIsOrderBlind(eval: ArgFn, s: seq<Binding>, t: seq<Binding>)
    requires TiesAgree(eval, s) && multiset(s) == multiset(t)
    ensures Collected(eval, s) == Collected(eval, t)
  {
    var at, valued := PlacedAt(eval), Valued(eval);
    NodeOrder();
    CollectedIsSorted(eval, s);
    CollectedIsSorted(eval, t);
    FilterPermuted(s, t, valued);
    var ps, pt := Map(Filter(s, valued), at), Map(Filter(t, valued), at);
    MapPermuted(Filter(s, valued), Filter(t, valued), at);
    PlacedApart(eval, s);
    SortOfPermuted(ps, pt, PlacedLeq);
  }

  lemma PlacedApart(eval: ArgFn, s: seq<Binding>)
    requires TiesAgree(eval, s)
    ensures AntisymmetricOn(Map(Filter(s, Valued(eval)), PlacedAt(eval)), PlacedLeq)
  {
    var kept := Filter(s, Valued(eval));
    var ps := Map(kept, PlacedAt(eval));
    FilterKeeps(s, Valued(eval));
    forall x, y | x in ps && y in ps && PlacedLeq(x, y) && PlacedLeq(y, x) ensures x == y {
      var i :| 0 <= i < |ps| && ps[i] == x;
      var j :| 0 <= j < |ps| && ps[j] == y;
      FilterMeans(s, Valued(eval), kept[i]);
      FilterMeans(s, Valued(eval), kept[j]);
      assert kept[i] in s && kept[j] in s;
    }
  }

  // Two bindings at one node with different values, put first, show their order.
  lemma TiesShow(eval: ArgFn, a: Binding, b: Binding, rest: seq<Binding>)
    requires Representative(a) == Representative(b) && Valued(eval)(a) && Valued(eval)(b)
    requires ValueAt(eval)(a) != ValueAt(eval)(b)
    ensures Collected(eval, [a, b] + rest) != Collected(eval, [b, a] + rest)
  {
    var s := Sort(rest, ByNode());
    NodeOrder();
    SortSorted(rest, ByNode());
    SortedUpward(a, s, ByNode());
    var l, r := SplitAt(a, s, ByNode());
    assert forall z :: ByNode()(a, z) == ByNode()(b, z);
    InsertTies(a, b, l, r, ByNode());
    InsertTies(b, a, l, r, ByNode());
    SortTwoMore(a, b, rest);
    SortTwoMore(b, a, rest);
    CollectAround(eval, l, a, b, r);
    CollectAround(eval, l, b, a, r);
    Swapped(NonNull(eval, l), ValueAt(eval)(a), ValueAt(eval)(b), NonNull(eval, r));
  }

  lemma Swapped(l: seq<Free>, x: Free, y: Free, r: seq<Free>)
    requires x != y
    ensures l + [x, y] + r != l + [y, x] + r
  {
    assert (l + [x, y] + r)[|l|] == x && (l + [y, x] + r)[|l|] == y;
  }

  lemma SortTwoMore(a: Binding, b: Binding, rest: seq<Binding>)
    ensures Sort([a, b] + rest, ByNode()) == Insert(a, Insert(b, Sort(rest, ByNode()), ByNode()), ByNode())
  {
    assert ([a, b] + rest)[1..] == [b] + rest && ([b] + rest)[1..] == rest;
  }

  lemma CollectAround(eval: ArgFn, l: seq<Binding>, a: Binding, b: Binding, r: seq<Binding>)
    requires Valued(eval)(a) && Valued(eval)(b)
    ensures NonNull(eval, l + [a, b] + r)
         == NonNull(eval, l) + [ValueAt(eval)(a), ValueAt(eval)(b)] + NonNull(eval, r)
  {
    FilterPair(l, a, b, r, Valued(eval));
    MapPair(Filter(l, Valued(eval)), a, b, Filter(r, Valued(eval)), ValueAt(eval));
  }

  // `collect` sees the order of its group exactly when two bindings of one representative node
  // contribute different values.
  lemma CollectIsOrderBlindExactly(a: Aggregate, s: seq<Binding>)
    requires a.name.CollectName? && |a.args| == 1 && AllValued(a.args[0].eval, s)
    ensures OrderBlind(a, s) <==> TiesAgree(a.args[0].eval, s)
  {
    var eval := a.args[0].eval;
    if TiesAgree(eval, s) {
      forall t | multiset(t) == multiset(s) ensures Aggregated(a, t) == Aggregated(a, s) {
        AllValuedPermuted(eval, s, t);
        AgreeingIsOrderBlind(eval, s, t);
      }
    } else {
      var x, y :| x in s && y in s && Representative(x) == Representative(y)
        && Valued(eval)(x) && Valued(eval)(y) && ValueAt(eval)(x) != ValueAt(eval)(y);
      DisagreeingShow(a, s, x, y);
    }
  }

  lemma DisagreeingShow(a: Aggregate, s: seq<Binding>, x: Binding, y: Binding)
    requires a.name.CollectName? && |a.args| == 1 && AllValued(a.args[0].eval, s)
    requires x in s && y in s && Representative(x) == Representative(y)
    requires var eval := a.args[0].eval;
      Valued(eval)(x) && Valued(eval)(y) && ValueAt(eval)(x) != ValueAt(eval)(y)
    ensures !OrderBlind(a, s)
  {
    var eval := a.args[0].eval;
    var rest := TakeTwo(s, x, y);
    var t, u := [x, y] + rest, [y, x] + rest;
    TiesShow(eval, x, y, rest);
    AllValuedPermuted(eval, s, t);
    AllValuedPermuted(eval, s, u);
    ShowsOrder(a, s, t, u);
  }

  lemma ShowsOrder(a: Aggregate, s: seq<Binding>, t: seq<Binding>, u: seq<Binding>)
    requires multiset(t) == multiset(s) == multiset(u) && Aggregated(a, t) != Aggregated(a, u)
    ensures !OrderBlind(a, s)
  {
  }
}
