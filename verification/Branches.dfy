// Which rows the full expansion has at all (crates/cgx-cli/src/forest.rs, expand_full): one per
// edge walk from a root that repeats no node before its end.
module Branches {
  import opened Graph
  import opened Rows
  import opened Forest
  import opened Expansion

  // `b` walks on from `node`, whose ancestors-and-self are `anc`, with at most `room` edges.
  ghost predicate Branch(f: Forest, node: NodeId, anc: seq<NodeId>, room: nat, b: seq<EdgeRec>)
    decreases |b|
  {
    && 0 < |b| <= room
    && b[0] in Kids(f, node)
    && (|b| > 1 ==> b[0].dst !in anc && Branch(f, b[0].dst, anc + [b[0].dst], room - 1, b[1..]))
  }

  ghost function Seen(anc: seq<NodeId>, b: seq<EdgeRec>): seq<NodeId>
    requires b != []
    decreases |b|
  {
    if |b| == 1 then anc else Seen(anc + [b[0].dst], b[1..])
  }

  ghost predicate Shows(r: Row, anc: seq<NodeId>, lasts: seq<bool>, b: seq<EdgeRec>)
    requires b != []
  {
    var e := b[|b| - 1];
    && r.node == e.dst && r.condition == e.condition && r.confidence == e.confidence
    && r.cycle == (e.dst in Seen(anc, b))
    && Depth(r) == |lasts| + |b| - 1
  }

  lemma {:induction false} RowInFlat(ts: seq<Tree>, i: nat, r: Row)
    requires i < |ts| && (r == ts[i].row || r in Flat(ts[i].kids))
    ensures r in Flat(ts)
    decreases i
  {
    if i > 0 {
      RowInFlat(ts[1..], i - 1, r);
    }
  }

  lemma {:induction false} RowFromFlat(ts: seq<Tree>, r: Row) returns (i: nat)
    requires r in Flat(ts)
    ensures i < |ts| && (r == ts[i].row || r in Flat(ts[i].kids))
    decreases |ts|
  {
    if r == ts[0].row || r in Flat(ts[0].kids) {
      i := 0;
    } else {
      var j := RowFromFlat(ts[1..], r);
      i := j + 1;
    }
  }

  function Room(depth: nat, limit: nat): nat {
    if depth > limit then 0 else limit + 1 - depth
  }

  lemma {:induction false} BranchIsPrinted(f: Forest, node: NodeId, depth: nat, limit: nat, anc: seq<NodeId>,
                                           lasts: seq<bool>, b: seq<EdgeRec>)
    requires Closed(f) && Branch(f, node, anc, Room(depth, limit), b)
    ensures exists r | r in Flat(Expand(f, node, depth, limit, anc, lasts)) :: Shows(r, anc, lasts, b)
    decreases |b|
  {
    var es := Kids(f, node);
    var ts := Expand(f, node, depth, limit, anc, lasts);
    var i :| 0 <= i < |es| && es[i] == b[0];
    var t := EdgeTree(f, es[i], i == |es| - 1, depth, limit, anc, lasts);
    assert ts[i] == t;
    if |b| == 1 {
      RowInFlat(ts, i, t.row);
      assert Shows(t.row, anc, lasts, b);
    } else {
      var lasts' := lasts + [i == |es| - 1];
      var rest := b[1..];
      var anc' := anc + [b[0].dst];
      BranchIsPrinted(f, b[0].dst, depth + 1, limit, anc', lasts', rest);
      assert t.kids == Expand(f, b[0].dst, depth + 1, limit, anc', lasts');
      var r :| r in Flat(t.kids) && Shows(r, anc', lasts', rest);
      RowInFlat(ts, i, r);
      assert rest[|rest| - 1] == b[|b| - 1] && Seen(anc, b) == Seen(anc', rest);
      assert Shows(r, anc, lasts, b);
    }
  }

  lemma {:induction false} RowIsBranch(f: Forest, node: NodeId, depth: nat, limit: nat, anc: seq<NodeId>,
                                       lasts: seq<bool>, r: Row) returns (b: seq<EdgeRec>)
    requires Closed(f) && r in Flat(Expand(f, node, depth, limit, anc, lasts))
    ensures Branch(f, node, anc, Room(depth, limit), b) && Shows(r, anc, lasts, b)
    decreases Rest(f, anc)
  {
    var ts := Expand(f, node, depth, limit, anc, lasts);
    var i := RowFromFlat(ts, r);
    var es := Kids(f, node);
    var e := es[i];
    var t := EdgeTree(f, e, i == |es| - 1, depth, limit, anc, lasts);
    assert ts[i] == t;
    if r == t.row {
      b := [e];
    } else {
      assert e.dst in Rest(f, anc) && e.dst !in Rest(f, anc + [e.dst]);
      var rest := RowIsBranch(f, e.dst, depth + 1, limit, anc + [e.dst], lasts + [i == |es| - 1], r);
      b := [e] + rest;
      assert b[1..] == rest;
    }
  }

  // The full expansion prints a row for exactly the walks of at most `limit` edges from a root
  // that repeat a node at most at their end, and marks those that do as cycles.
  lemma RowsAreBranches(f: Forest, root: NodeId, limit: nat)
    requires Closed(f)
    ensures forall b | Branch(f, root, [root], limit, b) ::
              exists r | r in Flat(Expand(f, root, 1, limit, [root], [])) :: Shows(r, [root], [], b)
    ensures forall r | r in Flat(Expand(f, root, 1, limit, [root], [])) ::
              exists b | Branch(f, root, [root], limit, b) :: Shows(r, [root], [], b)
  {
    assert Room(1, limit) == limit;
    forall b | Branch(f, root, [root], limit, b)
      ensures exists r | r in Flat(Expand(f, root, 1, limit, [root], [])) :: Shows(r, [root], [], b)
    {
      BranchIsPrinted(f, root, 1, limit, [root], [], b);
    }
    forall r | r in Flat(Expand(f, root, 1, limit, [root], []))
      ensures exists b | Branch(f, root, [root], limit, b) :: Shows(r, [root], [], b)
    {
      var b := RowIsBranch(f, root, 1, limit, [root], [], r);
    }
  }
}
