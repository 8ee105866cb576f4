// RETURN without aggregates (crates/cgx-cql/src/eval.rs, project, sort_bindings_default, sort_rows):
// on float-free rows the table depends only on which bindings there are, not on their order.
module Projection {
  import opened Prelude
  import opened Values
  import opened ValueOrder
  import opened Sequences
  import opened Sorting

  type Binding = map<string, Value>

  type Row = r: seq<Value> | AllFloatFree(r) witness []

  // An ORDER BY key: the RETURN column it names, if it names one.
  datatype OrderKey = OrderKey(col: Option<nat>, descending: bool)

  datatype Return = Return(distinct: bool, order: seq<OrderKey>, limit: Option<nat>, wholePath: bool)

  datatype Table = Table(rows: seq<Row>, paths: seq<Value>)

  // ---- orders on rows ----

  predicate RowLeq(a: Row, b: Row) {
    ListCmp(a, b) != Greater
  }

  // A binding's place in the default order: its smallest node, then its row.
  datatype Keyed = Keyed(rep: Option<nat>, row: Row)

  predicate DefaultLeq(a: Keyed, b: Keyed) {
    match (a.rep, b.rep)
    case (Some(x), Some(y)) => x < y || (x == y && RowLeq(a.row, b.row))
    case (Some(_), None) => true
    case (None, Some(_)) => false
    case (None, None) => RowLeq(a.row, b.row)
  }

  // A resolved column always lies within the row.
  function Cell(r: Row, i: nat): (v: Value)
    ensures FloatFree(v)
  {
    if i < |r| then r[i] else Null
  }

  function KeyCmp(k: OrderKey, a: Row, b: Row): Ordering {
    match k.col
    case None => Equal
    case Some(i) =>
      var o := Compare(Cell(a, i), Cell(b, i));
      if k.descending then Flip(o) else o
  }

  // The keys in turn, then the whole row.
  function OrderCmp(order: seq<OrderKey>, a: Row, b: Row): Ordering {
    if order == [] then ListCmp(a, b)
    else
      var o := KeyCmp(order[0], a, b);
      if o != Equal then o else OrderCmp(order[1..], a, b)
  }

  function OrderLeq(order: seq<OrderKey>): (Row, Row) -> bool {
    (a: Row, b: Row) => OrderCmp(order, a, b) != Greater
  }

  lemma {:induction false} OrderLaws(order: seq<OrderKey>, a: Row, b: Row, c: Row)
    ensures OrderCmp(order, b, a) == Flip(OrderCmp(order, a, b))
    ensures OrderCmp(order, a, b) == Equal ==> a == b
    ensures OrderCmp(order, a, b) != Greater && OrderCmp(order, b, c) != Greater ==> OrderCmp(order, a, c) != Greater
    decreases |order|
  {
    if order == [] {
      ListLaws(a, b);
      if ListCmp(a, b) != Greater && ListCmp(b, c) != Greater {
        ListTransitive(a, b, c);
      }
    } else {
      OrderLaws(order[1..], a, b, c);
      if order[0].col.Some? {
        CellLaws(order[0].col.value, a, b, c);
      }
    }
  }

  lemma CellLaws(i: nat, a: Row, b: Row, c: Row)
    ensures var x, y, z := Cell(a, i), Cell(b, i), Cell(c, i);
      && Compare(y, x) == Flip(Compare(x, y)) && Compare(z, y) == Flip(Compare(y, z))
      && Compare(z, x) == Flip(Compare(x, z))
      && (Compare(x, y) == Equal <==> x == y) && (Compare(y, z) == Equal <==> y == z)
      && (Compare(x, z) == Equal <==> x == z)
      && (Compare(x, y) != Greater && Compare(y, z) != Greater ==> Compare(x, z) != Greater)
      && (Compare(z, y) != Greater && Compare(y, x) != Greater ==> Compare(z, x) != Greater)
  {
    var x, y, z := Cell(a, i), Cell(b, i), Cell(c, i);
    CompareLaws(x, y);
    CompareLaws(y, z);
    CompareLaws(x, z);
    if Compare(x, y) != Greater && Compare(y, z) != Greater {
      CompareTransitive(x, y, z);
    }
    if Compare(z, y) != Greater && Compare(y, x) != Greater {
      CompareTransitive(z, y, x);
    }
  }

  lemma OrdersRows(order: seq<OrderKey>)
    ensures Preorder(OrderLeq(order))
    ensures forall s: seq<Row> :: AntisymmetricOn(s, OrderLeq(order))
  {
    forall a: Row, b: Row, c: Row
      ensures OrderLeq(order)(a, b) || OrderLeq(order)(b, a)
      ensures OrderLeq(order)(a, b) && OrderLeq(order)(b, c) ==> OrderLeq(order)(a, c)
      ensures OrderLeq(order)(a, b) && OrderLeq(order)(b, a) ==> a == b
    {
      OrderLaws(order, a, b, c);
    }
  }

  lemma DefaultOrder()
    ensures Preorder(DefaultLeq) && forall s: seq<Keyed> :: AntisymmetricOn(s, DefaultLeq)
  {
    forall a: Keyed, b: Keyed, c: Keyed
      ensures DefaultLeq(a, b) || DefaultLeq(b, a)
      ensures DefaultLeq(a, b) && DefaultLeq(b, c) ==> DefaultLeq(a, c)
      ensures DefaultLeq(a, b) && DefaultLeq(b, a) ==> a == b
    {
      OrderLaws([], a.row, b.row, c.row);
    }
  }

  // ---- the table as a function of the keyed rows ----

  function PathsOf(rows: seq<Row>): seq<Value> {
    if rows == [] then []
    else (if rows[0] != [] && rows[0][0].Path? then [rows[0][0]] else []) + PathsOf(rows[1..])
  }

  function Limited<T>(s: seq<T>, limit: Option<nat>): seq<T> {
    if limit.Some? && limit.value < |s| then s[..limit.value] else s
  }

  predicate Resolved(order: seq<OrderKey>) {
    forall i | 0 <= i < |order| :: order[i].col.Some?
  }

  // Ordering, de-duplicating and cutting rows that are already in default order if they need be.
  function Shaped(ret: Return, rows0: seq<Row>): Option<Table> {
    var rows1 := if ret.distinct then Dedup(Sort(rows0, OrderLeq([]))) else rows0;
    if ret.order != [] && rows1 != [] && !Resolved(ret.order) then None
    else
      var rows2 := if ret.order != [] then Sort(rows1, OrderLeq(ret.order)) else rows1;
      Some(Table(Limited(rows2, ret.limit), if ret.wholePath then Limited(PathsOf(rows2), ret.limit) else []))
  }

  function RowsOf(ks: seq<Keyed>): seq<Row> {
    Map(ks, (k: Keyed) => k.row)
  }

  function TableOf(ret: Return, ks: seq<Keyed>): Option<Table> {
    Shaped(ret, RowsOf(if ret.order == [] then Sort(ks, DefaultLeq) else ks))
  }

  // The table depends on the multiset of keyed rows alone.
  lemma TableOfPermuted(ret: Return, s: seq<Keyed>, t: seq<Keyed>)
    requires multiset(s) == multiset(t)
    ensures TableOf(ret, s) == TableOf(ret, t)
  {
    if ret.order == [] {
      DefaultOrder();
      SortOfPermuted(s, t, DefaultLeq);
    } else {
      MapPermuted(s, t, (k: Keyed) => k.row);
      ShapedPermuted(ret, RowsOf(s), RowsOf(t));
    }
  }

  lemma ShapedPermuted(ret: Return, s: seq<Row>, t: seq<Row>)
    requires multiset(s) == multiset(t) && ret.order != []
    ensures Shaped(ret, s) == Shaped(ret, t)
  {
    if ret.distinct {
      OrdersRows([]);
      SortOfPermuted(s, t, OrderLeq([]));
    } else {
      OrdersRows(ret.order);
      SortOfPermuted(s, t, OrderLeq(ret.order));
      assert |multiset(s)| == |s| && |multiset(t)| == |t|;
    }
  }

  // ---- DISTINCT ----

  predicate StrictlyIncreasing(s: seq<Row>) {
    forall i, j | 0 <= i < j < |s| :: ListCmp(s[i], s[j]) == Less
  }

  // DISTINCT lists the same rows, each once, in increasing order.
  lemma DistinctRows(rows: seq<Row>)
    ensures var d := Dedup(Sort(rows, OrderLeq([])));
      StrictlyIncreasing(d) && forall r :: r in d <==> r in rows
  {
    OrdersRows([]);
    SortedDistinct(rows, OrderLeq([]));
    var d := Dedup(Sort(rows, OrderLeq([])));
    forall i, j | 0 <= i < j < |d| ensures ListCmp(d[i], d[j]) == Less {
      assert OrderLeq([])(d[i], d[j]) && d[i] != d[j];
      OrderLaws([], d[i], d[j], d[j]);
    }
  }

  // ---- evaluating bindings ----

  predicate IsMin(x: nat, s: set<nat>) {
    x in s && forall y | y in s :: x <= y
  }

  lemma {:induction false} HasMin(s: set<nat>)
    requires s != {}
    ensures exists x :: IsMin(x, s)
    decreases |s|
  {
    var x :| x in s;
    if y :| y in s && y < x {
      var rest := s - {x};
      assert y in rest;
      HasMin(rest);
      var m :| IsMin(m, rest);
      assert forall z | z in s :: z == x || z in rest;
      assert IsMin(m, s);
    } else {
      assert IsMin(x, s);
    }
  }

  // The smallest node bound to any variable.
  function Representative(b: Binding): (r: Option<nat>)
    ensures r.Some? ==> exists v | v in b :: b[v] == Node(r.value)
    ensures r.None? ==> forall v | v in b :: !b[v].Node?
    ensures r.Some? ==> forall v | v in b && b[v].Node? :: r.value <= b[v].node
  {
    var nodes := set v | v in b && b[v].Node? :: b[v].node;
    assert forall v | v in b && b[v].Node? :: b[v].node in nodes;
    if nodes == {} then None
    else
      HasMin(nodes);
      var x :| IsMin(x, nodes);
      Some(x)
  }

  // How the RETURN items evaluate over one binding; None is an evaluation error.
  type Eval = Binding -> Option<Row>

  predicate AllEvaluate(eval: Eval, bs: seq<Binding>) {
    forall i | 0 <= i < |bs| :: eval(bs[i]).Some?
  }

  function KeyedBy(eval: Eval): Binding -> Keyed {
    (b: Binding) => Keyed(Representative(b), if eval(b).Some? then eval(b).value else [])
  }

  function Projected(ret: Return, bs: seq<Binding>, eval: Eval): Option<Table> {
    if AllEvaluate(eval, bs) then TableOf(ret, Map(bs, KeyedBy(eval))) else None
  }

  // Rows never depend on the order in which bindings were enumerated.
  lemma ProjectIsDeterministic(ret: Return, s: seq<Binding>, t: seq<Binding>, eval: Eval)
    requires multiset(s) == multiset(t)
    ensures Projected(ret, s, eval) == Projected(ret, t, eval)
  {
    assert AllEvaluate(eval, s) <==> forall b | b in multiset(s) :: eval(b).Some?;
    assert AllEvaluate(eval, t) <==> forall b | b in multiset(t) :: eval(b).Some?;
    MapPermuted(s, t, KeyedBy(eval));
    TableOfPermuted(ret, Map(s, KeyedBy(eval)), Map(t, KeyedBy(eval)));
  }

  // Bindings in default order, by their smallest node and then their row.
  method SortBindingsDefault(bs: seq<Binding>, eval: Eval) returns (r: Option<seq<Binding>>)
    ensures r.Some? <==> AllEvaluate(eval, bs)
    ensures r.Some? ==> r.value == Sort(bs, Through(KeyedBy(eval), DefaultLeq))
  {
    for i := 0 to |bs|
      invariant AllEvaluate(eval, bs[..i])
    {
      if eval(bs[i]).None? {
        return None;
      }
    }
    return Some(Sort(bs, Through(KeyedBy(eval), DefaultLeq)));
  }

  lemma SortedEvaluate(bs: seq<Binding>, eval: Eval)
    requires AllEvaluate(eval, bs)
    ensures AllEvaluate(eval, Sort(bs, Through(KeyedBy(eval), DefaultLeq)))
  {
    var sorted := Sort(bs, Through(KeyedBy(eval), DefaultLeq));
    forall i | 0 <= i < |sorted| ensures eval(sorted[i]).Some? {
      assert sorted[i] in multiset(sorted);
      assert sorted[i] in multiset(bs);
    }
  }

  method EvalRows(bs: seq<Binding>, eval: Eval, wholePath: bool) returns (t: Option<Table>)
    ensures t.Some? <==> AllEvaluate(eval, bs)
    ensures t.Some? ==>
              && t.value.rows == RowsOf(Map(bs, KeyedBy(eval)))
              && t.value.paths == if wholePath then PathsOf(t.value.rows) else []
  {
    var rows: seq<Row> := [];
    var paths: seq<Value> := [];
    for i := 0 to |bs|
      invariant AllEvaluate(eval, bs[..i]) && rows == RowsOf(Map(bs[..i], KeyedBy(eval)))
      invariant paths == if wholePath then PathsOf(rows) else []
    {
      var row := eval(bs[i]);
      if row.None? {
        return None;
      }
      assert bs[..i + 1] == bs[..i] + [bs[i]];
      PathsSnoc(rows, row.value);
      if wholePath && row.value != [] && row.value[0].Path? {
        paths := paths + [row.value[0]];
      }
      rows := rows + [row.value];
    }
    assert bs[..|bs|] == bs;
    return Some(Table(rows, paths));
  }

  method Shape(ret: Return, t: Table) returns (r: Option<Table>)
    requires t.paths == if ret.wholePath then PathsOf(t.rows) else []
    ensures r == Shaped(ret, t.rows)
  {
    var rows, paths := t.rows, t.paths;
    if ret.distinct {
      rows := Dedup(Sort(rows, OrderLeq([])));
      if ret.wholePath {
        paths := PathsOf(rows);
      }
    }
    if ret.order != [] {
      if rows != [] && !Resolved(ret.order) {
        return None;
      }
      rows := Sort(rows, OrderLeq(ret.order));
      if ret.wholePath {
        paths := PathsOf(rows);
      }
    }
    return Some(Table(Limited(rows, ret.limit), Limited(paths, ret.limit)));
  }

  method Project(ret: Return, bindings: seq<Binding>, eval: Eval) returns (t: Option<Table>)
    ensures t == Projected(ret, bindings, eval)
  {
    var bs := bindings;
    if ret.order == [] {
      var sorted := SortBindingsDefault(bs, eval);
      if sorted.None? {
        return None;
      }
      SortedEvaluate(bs, eval);
      SortMap(bs, KeyedBy(eval), DefaultLeq);
      bs := sorted.value;
    }
    var rows := EvalRows(bs, eval, ret.wholePath);
    if rows.None? {
      return None;
    }
    t := Shape(ret, rows.value);
  }

  lemma {:induction false} PathsSnoc(rows: seq<Row>, r: Row)
    ensures PathsOf(rows + [r]) == PathsOf(rows) + if r != [] && r[0].Path? then [r[0]] else []
    decreases |rows|
  {
    if rows == [] {
      assert rows + [r] == [r] && [r][1..] == [];
    } else {
      var h, t := rows[0], rows[1..];
      PathsSnoc(t, r);
      assert rows + [r] == [h] + (t + [r]);
      PathsCons(h, t + [r]);
    }
  }

  lemma PathsCons(h: Row, t: seq<Row>)
    ensures PathsOf([h] + t) == (if h != [] && h[0].Path? then [h[0]] else []) + PathsOf(t)
  {
    assert ([h] + t)[1..] == t;
  }
}
