// RETURN with aggregates (crates/cgx-cql/src/eval.rs, project_grouped): one row per group, and when
// the table depends on nothing but which bindings there are.
module GroupedProjection {
  import opened Prelude
  import opened Values
  import opened Sequences
  import opened Sorting
  import opened Projection
  import opened Aggregates
  import opened Extrema
  import opened Grouping

  datatype Item = KeyItem(eval: ArgFn) | AggItem(call: Aggregate)

  predicate NoKeys(items: seq<Item>) {
    forall i | 0 <= i < |items| :: items[i].AggItem?
  }

  // The values of the items that are not aggregates.
  function KeyTuple(items: seq<Item>, b: Binding): Option<Row> {
    if items == [] then Some([])
    else
      var last, init := items[|items| - 1], KeyTuple(items[..|items| - 1], b);
      if init.None? || last.AggItem? then init
      else if last.eval(b).None? then None
      else Some(init.value + [last.eval(b).value])
  }

  function KeysBy(items: seq<Item>): Eval {
    (b: Binding) => KeyTuple(items, b)
  }

  // A cell of a group's row: the folded aggregate, or the key's value in the first binding.
  function CellOf(item: Item, group: seq<Binding>): Option<Free> {
    match item
    case AggItem(a) => Aggregated(a, group)
    case KeyItem(eval) => if group == [] then None else eval(group[0])
  }

  function GroupRow(items: seq<Item>, group: seq<Binding>): Option<Row> {
    if items == [] then Some([])
    else
      var init, v := GroupRow(items[..|items| - 1], group), CellOf(items[|items| - 1], group);
      if init.None? || v.None? then None else Some(init.value + [v.value])
  }

  // The groups of a stream; one empty group when there are neither keys nor bindings.
  function GroupsIn(items: seq<Item>, bs: seq<Binding>): seq<seq<Binding>> {
    if NoKeys(items) && bs == [] then [[]]
    else GroupsOf(bs, KeyBy(KeysBy(items)), FirstSeen(bs, KeyBy(KeysBy(items))))
  }

  predicate AllRows(items: seq<Item>, gs: seq<seq<Binding>>) {
    forall i | 0 <= i < |gs| :: GroupRow(items, gs[i]).Some?
  }

  function RowIn(items: seq<Item>): seq<Binding> -> Row {
    (g: seq<Binding>) => if GroupRow(items, g).Some? then GroupRow(items, g).value else []
  }

  // De-duplicating, ordering and cutting: by the keys, then by the row.
  function GroupsShaped(ret: Return, rows0: seq<Row>): Option<Table> {
    var rows1 := if ret.distinct then Dedup(Sort(rows0, OrderLeq([]))) else rows0;
    if rows1 != [] && !Resolved(ret.order) then None
    else Some(Table(Limited(Sort(rows1, OrderLeq(ret.order)), ret.limit), []))
  }

  function GroupedTable(ret: Return, items: seq<Item>, bs: seq<Binding>): Option<Table> {
    var gs := GroupsIn(items, bs);
    if !AllEvaluate(KeysBy(items), bs) || !AllRows(items, gs) then None
    else GroupsShaped(ret, Map(gs, RowIn(items)))
  }

  // ---- the program ----

  method ProjectGrouped(ret: Return, items: seq<Item>, bindings: seq<Binding>) returns (t: Option<Table>)
    ensures t == GroupedTable(ret, items, bindings)
  {
    var grouped := Group(bindings, KeysBy(items));
    if grouped.None? {
      return None;
    }
    var groups := grouped.value;
    SomeGroup(bindings, KeyBy(KeysBy(items)));
    if NoKeys(items) && groups == [] {
      groups := [[]];
    }
    var rows := FoldGroups(items, groups);
    if rows.None? {
      return None;
    }
    t := ShapeGroups(ret, rows.value);
  }

  method FoldGroups(items: seq<Item>, groups: seq<seq<Binding>>) returns (r: Option<seq<Row>>)
    ensures r == if AllRows(items, groups) then Some(Map(groups, RowIn(items))) else None
  {
    var rows: seq<Row> := [];
    for i := 0 to |groups|
      invariant AllRows(items, groups[..i]) && rows == Map(groups[..i], RowIn(items))
    {
      var row := FoldGroup(items, groups[i]);
      if row.None? {
        return None;
      }
      assert groups[..i + 1] == groups[..i] + [groups[i]];
      rows := rows + [row.value];
    }
    assert groups[..|groups|] == groups;
    return Some(rows);
  }

  method FoldGroup(items: seq<Item>, group: seq<Binding>) returns (r: Option<Row>)
    ensures r == GroupRow(items, group)
  {
    var row: Row := [];
    for i := 0 to |items|
      invariant GroupRow(items[..i], group) == Some(row)
    {
      assert items[..i + 1][..i] == items[..i];
      var v: Option<Free>;
      match items[i] {
        case AggItem(a) => v := EvalAggregate(a, group);
        case KeyItem(eval) => v := if group == [] then None else eval(group[0]);
      }
      if v.None? {
        RowFails(items, i + 1, group);
        return None;
      }
      row := row + [v.value];
    }
    assert items[..|items|] == items;
    return Some(row);
  }

  lemma {:induction false} RowFails(items: seq<Item>, i: nat, group: seq<Binding>)
    requires i <= |items| && GroupRow(items[..i], group).None?
    ensures GroupRow(items, group).None?
    decreases |items| - i
  {
    if i < |items| {
      assert items[..i + 1][..i] == items[..i];
      RowFails(items, i + 1, group);
    } else {
      assert items[..i] == items;
    }
  }

  method ShapeGroups(ret: Return, rows0: seq<Row>) returns (t: Option<Table>)
    ensures t == GroupsShaped(ret, rows0)
  {
    var rows := rows0;
    if ret.distinct {
      rows := Dedup(Sort(rows, OrderLeq([])));
    }
    if ret.order != [] {
      if rows != [] && !Resolved(ret.order) {
        return None;
      }
      rows := Sort(rows, OrderLeq(ret.order));
    } else {
      rows := Sort(rows, OrderLeq([]));
    }
    return Some(Table(Limited(rows, ret.limit), []));
  }

  lemma SomeGroup(bs: seq<Binding>, key: KeyFn)
    ensures GroupsOf(bs, key, FirstSeen(bs, key)) == [] <==> bs == []
  {
    if bs != [] {
      SeenSome(bs, key);
    }
  }

  // ---- an empty stream ----

  // What an aggregate makes of nothing.
  function Nothing(a: Aggregate): Option<Free> {
    if a.name.CountName? && (a.args == [] || a.args[0].star) then Some(Int(0))
    else if |a.args| != 1 then None
    else
      match a.name
      case CountName => Some(Int(0))
      case CollectName => Some(List([]))
      case _ => Some(Null)
  }

  // With keys an empty stream gives no row; without, one row of what aggregates make of nothing.
  lemma EmptyStream(items: seq<Item>)
    ensures |GroupsIn(items, [])| == if NoKeys(items) then 1 else 0
    ensures NoKeys(items) ==> GroupsIn(items, []) == [[]]
    ensures forall a :: Aggregated(a, []) == Nothing(a)
  {
    SomeGroup([], KeyBy(KeysBy(items)));
    forall a ensures Aggregated(a, []) == Nothing(a) {
      NothingIsAggregated(a);
    }
  }

  lemma NothingIsAggregated(a: Aggregate)
    ensures Aggregated(a, []) == Nothing(a)
  {
    if |a.args| == 1 {
      var eval := a.args[0].eval;
      var none: seq<Binding> := [];
      assert Sort(none, ByNode()) == none && Map(none, ValueAt(eval)) == [];
      assert Collected(eval, none) == [];
    }
  }

  // ---- which aggregates are settled by the multiset of their group ----

  // Counts always are; `collect` where bindings of one node agree; MIN and MAX where there is an
  // extreme element to find. An error is an error in any order.
  ghost predicate Settled(a: Aggregate, g: seq<Binding>) {
    a.name.CountName? || |a.args| != 1 || !AllValued(a.args[0].eval, g)
    || if a.name.CollectName? then TiesAgree(a.args[0].eval, g)
       else ElemsOf(a, g) == [] || HasExtreme(a.name.MaxName?, ElemsOf(a, g))
  }

  lemma SettledIsBlind(a: Aggregate, g: seq<Binding>)
    requires Settled(a, g)
    ensures OrderBlind(a, g)
  {
    if a.name.CountName? {
      CountIsOrderBlind(a, g);
    } else if |a.args| == 1 && !AllValued(a.args[0].eval, g) {
      forall h | multiset(h) == multiset(g) ensures Aggregated(a, h) == Aggregated(a, g) {
        AllValuedPermuted(a.args[0].eval, g, h);
      }
    } else if |a.args| == 1 {
      if a.name.CollectName? {
        CollectIsOrderBlindExactly(a, g);
      } else {
        PickIsOrderBlind(a, g);
      }
    }
  }

  // Unless MIN or MAX is given lists, this is exact.
  lemma SettledExactly(a: Aggregate, g: seq<Binding>)
    requires IsPick(a) ==> NoLists(a.args[0].eval, g)
    ensures OrderBlind(a, g) <==> Settled(a, g)
  {
    if Settled(a, g) {
      SettledIsBlind(a, g);
    } else if a.name.CollectName? {
      CollectIsOrderBlindExactly(a, g);
    } else {
      PickIsOrderBlindExactly(a, g);
    }
  }

  // `collect(x)` over two bindings with one lowest node and different values lists them as they come.
  lemma CollectShowsOrder(n: nat, x: string, y: string)
    requires x != y
    ensures var p, q := map["a" := Node(n), "x" := Str(x)], map["a" := Node(n), "x" := Str(y)];
      Aggregated(CollectText(), [p, q]) != Aggregated(CollectText(), [q, p])
  {
    OneNode(n, x);
    OneNode(n, y);
    CollectTwo(map["a" := Node(n), "x" := Str(x)], map["a" := Node(n), "x" := Str(y)]);
  }

  function CollectText(): Aggregate {
    Aggregate(CollectName, [Arg(false, (b: Binding) => Some(TextOf(b)))])
  }

  lemma CollectTwo(p: Binding, q: Binding)
    requires Representative(p) == Representative(q)
    requires TextOf(p) != Null && TextOf(q) != Null && TextOf(p) != TextOf(q)
    ensures Aggregated(CollectText(), [p, q]) != Aggregated(CollectText(), [q, p])
  {
    var none: seq<Binding> := [];
    TextIsValue(p);
    TextIsValue(q);
    TiesShow(CollectText().args[0].eval, p, q, none);
    assert [p, q] + none == [p, q] && [q, p] + none == [q, p];
    CollectUnfold(CollectText(), [p, q]);
    CollectUnfold(CollectText(), [q, p]);
  }

  lemma TextIsValue(b: Binding)
    ensures var eval := CollectText().args[0].eval;
      ValueAt(eval)(b) == TextOf(b) && (Valued(eval)(b) <==> TextOf(b) != Null)
  {
    assert ValueAt(CollectText().args[0].eval)(b) == TextOf(b);
  }

  lemma CollectUnfold(a: Aggregate, g: seq<Binding>)
    requires a.name.CollectName? && |a.args| == 1 && AllValued(a.args[0].eval, g)
    ensures Aggregated(a, g) == Some(List(Collected(a.args[0].eval, g)))
  {
  }

  lemma OneNode(n: nat, x: string)
    ensures var p := map["a" := Node(n), "x" := Str(x)]; Representative(p) == Some(n) && TextOf(p) == Str(x)
  {
    var p := map["a" := Node(n), "x" := Str(x)];
    assert p["a"] == Node(n) && p["x"] == Str(x);
  }

  function TextOf(b: Binding): Free {
    if "x" in b && b["x"].Str? then b["x"] else Null
  }

  // ---- the keys are constant within a group ----

  lemma {:induction false} KeyLength(items: seq<Item>, a: Binding, b: Binding)
    requires KeyTuple(items, a).Some? && KeyTuple(items, b).Some?
    ensures |KeyTuple(items, a).value| == |KeyTuple(items, b).value|
    decreases |items|
  {
    if items != [] {
      KeyLength(items[..|items| - 1], a, b);
    }
  }

  // Bindings with one key tuple agree on every key.
  lemma {:induction false} KeysAgree(items: seq<Item>, a: Binding, b: Binding, i: nat)
    requires KeyTuple(items, a).Some? && KeyTuple(items, a) == KeyTuple(items, b)
    requires i < |items| && items[i].KeyItem?
    ensures items[i].eval(a) == items[i].eval(b) && items[i].eval(a).Some?
    decreases |items|
  {
    var n := |items| - 1;
    var init := items[..n];
    KeyLength(init, a, b);
    var x, y := KeyTuple(init, a).value, KeyTuple(init, b).value;
    if items[n].KeyItem? {
      var u, v := items[n].eval(a).value, items[n].eval(b).value;
      assert x == (x + [u])[..|x|] && y == (y + [v])[..|y|];
      assert u == (x + [u])[|x|] && v == (y + [v])[|y|];
    }
    if i < n {
      KeysAgree(init, a, b, i);
    }
  }

  // ---- determinism ----

  // Every aggregate is settled on every group of the stream.
  ghost predicate AllSettled(items: seq<Item>, bs: seq<Binding>) {
    forall i, g | 0 <= i < |items| && items[i].AggItem? && g in GroupsIn(items, bs) :: Settled(items[i].call, g)
  }

  lemma AllSettledAreBlind(items: seq<Item>, bs: seq<Binding>)
    requires AllSettled(items, bs)
    ensures AllBlind(items, bs)
  {
    forall i, g | 0 <= i < |items| && items[i].AggItem? && g in GroupsIn(items, bs)
      ensures OrderBlind(items[i].call, g)
    {
      SettledIsBlind(items[i].call, g);
    }
  }

  // No aggregate sees the order of a group of the stream.
  ghost predicate AllBlind(items: seq<Item>, bs: seq<Binding>) {
    forall i, g | 0 <= i < |items| && items[i].AggItem? && g in GroupsIn(items, bs) :: OrderBlind(items[i].call, g)
  }

  // One key's group, in two arrangements of a stream, gives one row.
  lemma {:induction false} SameGroupRow(items: seq<Item>, n: nat, g: seq<Binding>, h: seq<Binding>)
    requires n <= |items| && multiset(g) == multiset(h)
    requires forall i | 0 <= i < |items| && items[i].AggItem? :: OrderBlind(items[i].call, g)
    requires g != [] ==> KeyTuple(items, g[0]).Some? && h != [] && KeyTuple(items, h[0]) == KeyTuple(items, g[0])
    ensures GroupRow(items[..n], g) == GroupRow(items[..n], h)
    decreases n
  {
    if n > 0 {
      assert items[..n][..n - 1] == items[..n - 1];
      SameGroupRow(items, n - 1, g, h);
      SameCell(items, n - 1, g, h);
    }
  }

  lemma SameCell(items: seq<Item>, i: nat, g: seq<Binding>, h: seq<Binding>)
    requires i < |items| && multiset(g) == multiset(h)
    requires items[i].AggItem? ==> OrderBlind(items[i].call, g)
    requires g != [] ==> KeyTuple(items, g[0]).Some? && h != [] && KeyTuple(items, h[0]) == KeyTuple(items, g[0])
    ensures CellOf(items[i], g) == CellOf(items[i], h)
  {
    assert |g| == |multiset(g)| == |multiset(h)| == |h|;
    if items[i].KeyItem? && g != [] {
      KeysAgree(items, g[0], h[0], i);
    }
  }

  // The grouped table is a function of the multiset of bindings wherever every aggregate is settled.
  lemma GroupedIsDeterministic(ret: Return, items: seq<Item>, s: seq<Binding>, t: seq<Binding>)
    requires multiset(s) == multiset(t) && AllSettled(items, s)
    ensures GroupedTable(ret, items, s) == GroupedTable(ret, items, t)
  {
    AllSettledAreBlind(items, s);
    assert |s| == |multiset(s)| == |multiset(t)| == |t|;
    if s != [] {
      EvaluatePermuted(KeysBy(items), s, t);
      if AllEvaluate(KeysBy(items), s) {
        SameRows(items, s, t);
        RowsPermuted(items, s, t);
        var a, b := Map(GroupsIn(items, s), RowIn(items)), Map(GroupsIn(items, t), RowIn(items));
        ShapedAlike(ret, a, b);
      }
    }
  }

  lemma EvaluatePermuted(eval: Eval, s: seq<Binding>, t: seq<Binding>)
    requires multiset(s) == multiset(t)
    ensures AllEvaluate(eval, s) <==> AllEvaluate(eval, t)
  {
    SameElements(s, t);
    assert AllEvaluate(eval, s) <==> forall b | b in s :: eval(b).Some?;
    assert AllEvaluate(eval, t) <==> forall b | b in t :: eval(b).Some?;
  }

  // The row of a key.
  function RowOfKey(items: seq<Item>, bs: seq<Binding>): Row -> Option<Row> {
    (k: Row) => GroupRow(items, Members(bs, KeyBy(KeysBy(items)), k))
  }

  lemma KeyMembers(items: seq<Item>, bs: seq<Binding>, k: Row)
    requires AllEvaluate(KeysBy(items), bs) && k in FirstSeen(bs, KeyBy(KeysBy(items)))
    ensures var g := Members(bs, KeyBy(KeysBy(items)), k); g != [] && KeyTuple(items, g[0]) == Some(k)
  {
    var key := KeyBy(KeysBy(items));
    SeenOnce(bs, key);
    var j :| 0 <= j < |bs| && key(bs[j]) == k;
    var g := Members(bs, key, k);
    MembersCount(bs, key, k, bs[j]);
    assert bs[j] in multiset(bs) && bs[j] in multiset(g);
    MembersCount(bs, key, k, g[0]);
    assert g[0] in multiset(g) && g[0] in multiset(bs) && key(g[0]) == k;
    var i :| 0 <= i < |bs| && bs[i] == g[0];
  }

  lemma BlindOnKey(items: seq<Item>, s: seq<Binding>, k: Row)
    requires AllBlind(items, s) && s != [] && k in FirstSeen(s, KeyBy(KeysBy(items)))
    ensures var g := Members(s, KeyBy(KeysBy(items)), k);
      forall i | 0 <= i < |items| && items[i].AggItem? :: OrderBlind(items[i].call, g)
  {
    var ks := FirstSeen(s, KeyBy(KeysBy(items)));
    var i :| 0 <= i < |ks| && ks[i] == k;
    assert GroupsIn(items, s)[i] in GroupsIn(items, s);
  }

  lemma SameRowOfKey(items: seq<Item>, s: seq<Binding>, t: seq<Binding>, k: Row)
    requires multiset(s) == multiset(t) && s != [] && AllBlind(items, s)
    requires AllEvaluate(KeysBy(items), s) && AllEvaluate(KeysBy(items), t)
    requires k in FirstSeen(s, KeyBy(KeysBy(items)))
    ensures RowOfKey(items, s)(k) == RowOfKey(items, t)(k)
  {
    var key := KeyBy(KeysBy(items));
    var g, h := Members(s, key, k), Members(t, key, k);
    BlindOnKey(items, s, k);
    SameMembers(s, t, key, k);
    KeyIn(s, t, key, k);
    KeyMembers(items, s, k);
    KeyMembers(items, t, k);
    SameGroupRow(items, |items|, g, h);
    assert items[..|items|] == items;
  }

  function Unwrapped(f: Row -> Option<Row>): Row -> Row {
    (k: Row) => if f(k).Some? then f(k).value else []
  }

  // Group rows are the rows of the keys.
  lemma RowsByKey(items: seq<Item>, bs: seq<Binding>)
    requires bs != []
    ensures var ks := FirstSeen(bs, KeyBy(KeysBy(items)));
      && (AllRows(items, GroupsIn(items, bs)) <==> forall k | k in ks :: RowOfKey(items, bs)(k).Some?)
      && Map(GroupsIn(items, bs), RowIn(items)) == Map(ks, Unwrapped(RowOfKey(items, bs)))
  {
    var ks, gs := FirstSeen(bs, KeyBy(KeysBy(items))), GroupsIn(items, bs);
    forall i | 0 <= i < |ks| ensures GroupRow(items, gs[i]) == RowOfKey(items, bs)(ks[i]) {
    }
    RowsOneByOne(items, gs, ks, RowOfKey(items, bs));
  }

  lemma RowsOneByOne(items: seq<Item>, gs: seq<seq<Binding>>, ks: seq<Row>, f: Row -> Option<Row>)
    requires |gs| == |ks| && forall i | 0 <= i < |ks| :: GroupRow(items, gs[i]) == f(ks[i])
    ensures AllRows(items, gs) <==> forall k | k in ks :: f(k).Some?
    ensures Map(gs, RowIn(items)) == Map(ks, Unwrapped(f))
  {
    if forall k | k in ks :: f(k).Some? {
      forall i | 0 <= i < |gs| ensures GroupRow(items, gs[i]).Some? {
        assert ks[i] in ks;
      }
    }
  }

  lemma SameRows(items: seq<Item>, s: seq<Binding>, t: seq<Binding>)
    requires multiset(s) == multiset(t) && s != [] && t != [] && AllBlind(items, s)
    requires AllEvaluate(KeysBy(items), s) && AllEvaluate(KeysBy(items), t)
    ensures AllRows(items, GroupsIn(items, s)) <==> AllRows(items, GroupsIn(items, t))
  {
    var key := KeyBy(KeysBy(items));
    RowsByKey(items, s);
    RowsByKey(items, t);
    forall k | k in FirstSeen(s, key) ensures RowOfKey(items, s)(k) == RowOfKey(items, t)(k) {
      SameRowOfKey(items, s, t, k);
    }
    forall k ensures k in FirstSeen(s, key) <==> k in FirstSeen(t, key) {
      KeyIn(s, t, key, k);
      KeyIn(t, s, key, k);
    }
  }

  lemma RowsPermuted(items: seq<Item>, s: seq<Binding>, t: seq<Binding>)
    requires multiset(s) == multiset(t) && s != [] && t != [] && AllBlind(items, s)
    requires AllEvaluate(KeysBy(items), s) && AllEvaluate(KeysBy(items), t)
    ensures multiset(Map(GroupsIn(items, s), RowIn(items))) == multiset(Map(GroupsIn(items, t), RowIn(items)))
  {
    var key := KeyBy(KeysBy(items));
    var f, g := Unwrapped(RowOfKey(items, s)), Unwrapped(RowOfKey(items, t));
    RowsByKey(items, s);
    RowsByKey(items, t);
    SameKeys(s, t, key);
    MapPermuted(FirstSeen(s, key), FirstSeen(t, key), f);
    forall k | k in FirstSeen(t, key) ensures f(k) == g(k) {
      KeyIn(t, s, key, k);
      SameRowOfKey(items, s, t, k);
    }
    MapSame(FirstSeen(t, key), f, g);
  }

  lemma MapSame(ks: seq<Row>, f: Row -> Row, g: Row -> Row)
    requires forall k | k in ks :: f(k) == g(k)
    ensures Map(ks, f) == Map(ks, g)
  {
    forall i | 0 <= i < |ks| ensures f(ks[i]) == g(ks[i]) {
      assert ks[i] in ks;
    }
  }

  lemma ShapedAlike(ret: Return, a: seq<Row>, b: seq<Row>)
    requires multiset(a) == multiset(b)
    ensures GroupsShaped(ret, a) == GroupsShaped(ret, b)
  {
    assert |a| == |multiset(a)| == |multiset(b)| == |b|;
    OrdersRows([]);
    OrdersRows(ret.order);
    SortOfPermuted(a, b, OrderLeq([]));
    SortOfPermuted(a, b, OrderLeq(ret.order));
  }
}
