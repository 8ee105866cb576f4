// What a graph diff says (crates/cgx-diff/src/diff.rs): it is a patch, it is empty exactly when
// nothing it compares differs, and it turns around with its sides.
module DiffTheorems {
  import opened Sequences
  import opened Sorting
  import opened Strings
  import opened GraphDiff

  // ---- the lists, by membership ----

  lemma AddedMeans(here: EdgeIndex, there: EdgeIndex, ks: seq<EdgeIdentity>, e: DiffEdge)
    requires ListsKeys(ks, here.Keys, IdLeq)
    ensures e in Each(ks, OnlyInFn(here, there)) <==>
      && e.identity in here && e.identity !in there
      && e == DiffEdge(e.identity, here[e.identity].record, here[e.identity].line)
  {
    EachMeans(ks, OnlyInFn(here, there), e);
    assert e.identity in ks <==> e.identity in here;
    if e.identity in here && e.identity !in there
      && e == DiffEdge(e.identity, here[e.identity].record, here[e.identity].line) {
      assert e in OnlyInFn(here, there)(e.identity);
    }
  }

  lemma ChangedMeans(base: EdgeIndex, head: EdgeIndex, ks: seq<EdgeIdentity>, e: ChangedEdge)
    requires ListsKeys(ks, head.Keys, IdLeq)
    ensures e in Each(ks, ChangedInFn(base, head)) <==>
      && e.identity in base && e.identity in head
      && base[e.identity].record.attrs != head[e.identity].record.attrs
      && e == ChangedEdge(e.identity, base[e.identity].record, head[e.identity].record,
                          ClassifyChange(base[e.identity].record, head[e.identity].record))
  {
    EachMeans(ks, ChangedInFn(base, head), e);
    assert e.identity in ks <==> e.identity in head;
    if e.identity in base && e.identity in head && e in ChangedIn(base, head, e.identity) {
      assert e in ChangedInFn(base, head)(e.identity);
    }
  }

  lemma NodesMean(here: NodeIndex, there: NodeIndex, ks: seq<string>, n: DiffNode)
    requires ListsKeys(ks, here.Keys, StrLeq)
    ensures n in Each(ks, NodeOnlyInFn(here, there)) <==>
      n.fqn in here && n.fqn !in there && n == DiffNode(n.fqn, here[n.fqn])
  {
    EachMeans(ks, NodeOnlyInFn(here, there), n);
    assert n.fqn in ks <==> n.fqn in here;
    if n.fqn in here && n.fqn !in there && n == DiffNode(n.fqn, here[n.fqn]) {
      assert n in NodeOnlyInFn(here, there)(n.fqn);
    }
  }

  // ---- a patch ----

  type AttrMap = map<EdgeIdentity, Attributes>

  function AttrsOf(m: EdgeIndex): AttrMap {
    map id | id in m :: m[id].record.attrs
  }

  function Removed(es: seq<DiffEdge>): set<EdgeIdentity> {
    set e | e in es :: e.identity
  }

  function Added(a: AttrMap, es: seq<DiffEdge>): AttrMap {
    if es == [] then a else Added(a, es[..|es| - 1])[es[|es| - 1].identity := es[|es| - 1].record.attrs]
  }

  function Replaced(a: AttrMap, es: seq<ChangedEdge>): AttrMap {
    if es == [] then a else Replaced(a, es[..|es| - 1])[es[|es| - 1].identity := es[|es| - 1].head.attrs]
  }

  // Take the removed edges out, put the added ones in, and give the changed ones their head
  // attributes.
  function Patched(a: AttrMap, d: Diff): AttrMap {
    Added(Replaced(a - Removed(d.removedEdges), d.changedEdges), d.addedEdges)
  }

  lemma {:induction false} AddedAt(a: AttrMap, es: seq<DiffEdge>, goal: AttrMap, id: EdgeIdentity)
    requires forall e | e in es :: e.identity in goal && goal[e.identity] == e.record.attrs
    ensures id in Added(a, es) <==> id in a || exists e | e in es :: e.identity == id
    ensures id in Added(a, es) ==>
              Added(a, es)[id] == if exists e | e in es :: e.identity == id then goal[id] else a[id]
    decreases |es|
  {
    if es != [] {
      var init, e := es[..|es| - 1], es[|es| - 1];
      assert es == init + [e];
      AddedAt(a, init, goal, id);
      assert e in es;
    }
  }

  lemma {:induction false} ReplacedAt(a: AttrMap, es: seq<ChangedEdge>, goal: AttrMap, id: EdgeIdentity)
    requires forall e | e in es :: e.identity in goal && goal[e.identity] == e.head.attrs
    ensures id in Replaced(a, es) <==> id in a || exists e | e in es :: e.identity == id
    ensures id in Replaced(a, es) ==>
              Replaced(a, es)[id] == if exists e | e in es :: e.identity == id then goal[id] else a[id]
    decreases |es|
  {
    if es != [] {
      var init, e := es[..|es| - 1], es[|es| - 1];
      assert es == init + [e];
      ReplacedAt(a, init, goal, id);
      assert e in es;
    }
  }

  lemma SomeAdded(here: EdgeIndex, there: EdgeIndex, ks: seq<EdgeIdentity>, id: EdgeIdentity)
    requires ListsKeys(ks, here.Keys, IdLeq)
    ensures (exists e | e in Each(ks, OnlyInFn(here, there)) :: e.identity == id) <==> id in here && id !in there
  {
    var es := Each(ks, OnlyInFn(here, there));
    if e :| e in es && e.identity == id {
      AddedMeans(here, there, ks, e);
    }
    if id in here && id !in there {
      AddedMeans(here, there, ks, DiffEdge(id, here[id].record, here[id].line));
    }
  }

  lemma SomeChanged(base: EdgeIndex, head: EdgeIndex, ks: seq<EdgeIdentity>, id: EdgeIdentity)
    requires ListsKeys(ks, head.Keys, IdLeq)
    ensures (exists e | e in Each(ks, ChangedInFn(base, head)) :: e.identity == id)
      <==> id in base && id in head && base[id].record.attrs != head[id].record.attrs
  {
    var es := Each(ks, ChangedInFn(base, head));
    if e :| e in es && e.identity == id {
      ChangedMeans(base, head, ks, e);
    }
    if id in base && id in head {
      ChangedMeans(base, head, ks, ChangedEdge(id, base[id].record, head[id].record,
                                               ClassifyChange(base[id].record, head[id].record)));
    }
  }

  // Applied to the base's identities and attributes, the diff gives the head's.
  lemma DiffIsPatch(base: Indexes, head: Indexes, bk: Keys, hk: Keys)
    requires KeysOf(bk, base) && KeysOf(hk, head)
    ensures Patched(AttrsOf(base.edges), DiffOf(base, head, bk, hk)) == AttrsOf(head.edges)
  {
    var d := DiffOf(base, head, bk, hk);
    var goal := AttrsOf(head.edges);
    var kept := AttrsOf(base.edges) - Removed(d.removedEdges);
    var replaced := Replaced(kept, d.changedEdges);
    forall e | e in d.changedEdges ensures e.identity in goal && goal[e.identity] == e.head.attrs {
      ChangedMeans(base.edges, head.edges, hk.ids, e);
    }
    forall e | e in d.addedEdges ensures e.identity in goal && goal[e.identity] == e.record.attrs {
      AddedMeans(head.edges, base.edges, hk.ids, e);
    }
    forall id
      ensures id in Patched(AttrsOf(base.edges), d) <==> id in goal
      ensures id in goal ==> Patched(AttrsOf(base.edges), d)[id] == goal[id]
    {
      SomeAdded(base.edges, head.edges, bk.ids, id);
      SomeAdded(head.edges, base.edges, hk.ids, id);
      SomeChanged(base.edges, head.edges, hk.ids, id);
      ReplacedAt(kept, d.changedEdges, goal, id);
      AddedAt(replaced, d.addedEdges, goal, id);
    }
  }

  // ---- empty ----

  predicate IsEmpty(d: Diff) {
    && d.addedEdges == [] && d.removedEdges == [] && d.changedEdges == []
    && d.addedNodes == [] && d.removedNodes == []
  }

  lemma EmptyHasNone<T>(s: seq<T>)
    ensures s == [] <==> forall x :: x !in s
  {
    if s != [] {
      assert s[0] in s;
    }
  }

  lemma NoneNamed(here: NodeIndex, there: NodeIndex, ks: seq<string>)
    requires ListsKeys(ks, here.Keys, StrLeq)
    ensures Each(ks, NodeOnlyInFn(here, there)) == [] <==> here.Keys <= there.Keys
  {
    var ns := Each(ks, NodeOnlyInFn(here, there));
    EmptyHasNone(ns);
    if ns == [] {
      forall fqn | fqn in here ensures fqn in there {
        NodesMean(here, there, ks, DiffNode(fqn, here[fqn]));
      }
    } else if here.Keys <= there.Keys {
      NodesMean(here, there, ks, ns[0]);
    }
  }

  lemma NoneAdded(here: EdgeIndex, there: EdgeIndex, ks: seq<EdgeIdentity>)
    requires ListsKeys(ks, here.Keys, IdLeq)
    ensures Each(ks, OnlyInFn(here, there)) == [] <==> here.Keys <= there.Keys
  {
    var es := Each(ks, OnlyInFn(here, there));
    if es == [] {
      forall id | id in here ensures id in there {
        AddedMeans(here, there, ks, DiffEdge(id, here[id].record, here[id].line));
      }
    } else {
      assert es[0] in es;
      AddedMeans(here, there, ks, es[0]);
    }
  }

  lemma NoneChanged(base: EdgeIndex, head: EdgeIndex, ks: seq<EdgeIdentity>)
    requires ListsKeys(ks, head.Keys, IdLeq)
    ensures Each(ks, ChangedInFn(base, head)) == []
      <==> forall id | id in base && id in head :: base[id].record.attrs == head[id].record.attrs
  {
    var es := Each(ks, ChangedInFn(base, head));
    if es == [] {
      forall id | id in base && id in head ensures base[id].record.attrs == head[id].record.attrs {
        ChangedMeans(base, head, ks, ChangedEdge(id, base[id].record, head[id].record,
                                                 ClassifyChange(base[id].record, head[id].record)));
      }
    } else {
      assert es[0] in es;
      ChangedMeans(base, head, ks, es[0]);
    }
  }

  lemma SameAttrs(base: EdgeIndex, head: EdgeIndex)
    ensures AttrsOf(base) == AttrsOf(head) <==>
      base.Keys == head.Keys && forall id | id in base && id in head :: base[id].record.attrs == head[id].record.attrs
  {
    var a, b := AttrsOf(base), AttrsOf(head);
    assert a.Keys == base.Keys && b.Keys == head.Keys;
    if a == b {
      forall id | id in base && id in head ensures base[id].record.attrs == head[id].record.attrs {
        assert a[id] == b[id];
      }
    }
  }

  // The diff is empty exactly when both sides have the same identities with the same attributes and
  // the same symbols.
  lemma EmptyExactly(base: Indexes, head: Indexes, bk: Keys, hk: Keys)
    requires KeysOf(bk, base) && KeysOf(hk, head)
    ensures IsEmpty(DiffOf(base, head, bk, hk))
      <==> AttrsOf(base.edges) == AttrsOf(head.edges) && base.nodes.Keys == head.nodes.Keys
  {
    NoneAdded(base.edges, head.edges, bk.ids);
    NoneAdded(head.edges, base.edges, hk.ids);
    NoneChanged(base.edges, head.edges, hk.ids);
    NoneNamed(base.nodes, head.nodes, bk.fqns);
    NoneNamed(head.nodes, base.nodes, hk.fqns);
    SameAttrs(base.edges, head.edges);
  }

  // ---- swapping sides ----

  function Turned(e: ChangedEdge): ChangedEdge {
    ChangedEdge(e.identity, e.head, e.base, ClassifyChange(e.head, e.base))
  }

  function Differs(base: EdgeIndex, head: EdgeIndex): EdgeIdentity -> bool {
    (id: EdgeIdentity) => id in base && id in head && base[id].record.attrs != head[id].record.attrs
  }

  lemma {:induction false} FilterStrict(ks: seq<EdgeIdentity>, p: EdgeIdentity -> bool)
    requires Strict(ks, IdLeq)
    ensures Strict(Filter(ks, p), IdLeq)
    decreases |ks|
  {
    if ks != [] {
      var init, k := ks[..|ks| - 1], ks[|ks| - 1];
      FilterStrict(init, p);
      var fs := Filter(init, p);
      forall i | 0 <= i < |fs| ensures IdLeq(fs[i], k) && fs[i] != k {
        FilterMeans(init, p, fs[i]);
        var j :| 0 <= j < |init| && init[j] == fs[i];
        assert IdLeq(ks[j], ks[|ks| - 1]);
      }
    }
  }

  // Walking one side's keys or the other's visits the changed identities in the same order.
  lemma SameChanged(base: EdgeIndex, head: EdgeIndex, bs: seq<EdgeIdentity>, hs: seq<EdgeIdentity>)
    requires ListsKeys(bs, base.Keys, IdLeq) && ListsKeys(hs, head.Keys, IdLeq)
    ensures Filter(bs, Differs(base, head)) == Filter(hs, Differs(base, head))
  {
    var p := Differs(base, head);
    IdOrder();
    FilterStrict(bs, p);
    FilterStrict(hs, p);
    forall id ensures id in Filter(bs, p) <==> id in Filter(hs, p) {
      FilterMeans(bs, p, id);
      FilterMeans(hs, p, id);
    }
    ListsOnce(Filter(bs, p), Filter(hs, p), IdLeq);
  }

  lemma MapAppend<A, B>(s: seq<A>, t: seq<A>, f: A -> B)
    ensures Map(s + t, f) == Map(s, f) + Map(t, f)
  {
  }

  lemma {:induction false} EachTurned(base: EdgeIndex, head: EdgeIndex, ks: seq<EdgeIdentity>)
    ensures Each(ks, ChangedInFn(head, base)) == Map(Each(ks, ChangedInFn(base, head)), Turned)
    decreases |ks|
  {
    if ks != [] {
      var init, k := ks[..|ks| - 1], ks[|ks| - 1];
      EachTurned(base, head, init);
      MapAppend(Each(init, ChangedInFn(base, head)), ChangedIn(base, head, k), Turned);
      assert ChangedIn(head, base, k) == Map(ChangedIn(base, head, k), Turned);
    }
  }

  lemma {:induction false} EachFiltered(base: EdgeIndex, head: EdgeIndex, ks: seq<EdgeIdentity>)
    ensures Each(ks, ChangedInFn(base, head)) == Each(Filter(ks, Differs(base, head)), ChangedInFn(base, head))
    decreases |ks|
  {
    if ks != [] {
      var init, k := ks[..|ks| - 1], ks[|ks| - 1];
      var fs := Filter(init, Differs(base, head));
      EachFiltered(base, head, init);
      if Differs(base, head)(k) {
        assert Filter(ks, Differs(base, head)) == fs + [k];
        EachSnoc(fs, k, ChangedInFn(base, head));
      } else {
        assert ChangedIn(base, head, k) == [] && Filter(ks, Differs(base, head)) == fs;
      }
    }
  }

  // Swapping the sides swaps added with removed and turns every change around.
  lemma SwapTurnsAround(base: Indexes, head: Indexes, bk: Keys, hk: Keys)
    requires KeysOf(bk, base) && KeysOf(hk, head)
    ensures var d, e := DiffOf(base, head, bk, hk), DiffOf(head, base, hk, bk);
      && e.addedEdges == d.removedEdges && e.removedEdges == d.addedEdges
      && e.addedNodes == d.removedNodes && e.removedNodes == d.addedNodes
      && e.changedEdges == Map(d.changedEdges, Turned)
  {
    EachTurned(base.edges, head.edges, bk.ids);
    EachFiltered(base.edges, head.edges, bk.ids);
    EachFiltered(base.edges, head.edges, hk.ids);
    SameChanged(base.edges, head.edges, bk.ids, hk.ids);
  }

  // The key lists are determined by the graphs, so the diff is too.
  lemma DiffIsDeterministic(d: Diff, e: Diff, base: Indexes, head: Indexes)
    requires IsDiff(d, base, head) && IsDiff(e, base, head)
    ensures d == e
  {
    var bk, hk :| KeysOf(bk, base) && KeysOf(hk, head) && d == DiffOf(base, head, bk, hk);
    var bk', hk' :| KeysOf(bk', base) && KeysOf(hk', head) && e == DiffOf(base, head, bk', hk');
    SameKeys(base, bk, bk');
    SameKeys(head, hk, hk');
  }

  lemma SameKeys(x: Indexes, k: Keys, l: Keys)
    requires KeysOf(k, x) && KeysOf(l, x)
    ensures k == l
  {
    IdOrder();
    NameOrder();
    ListsOnce(k.ids, l.ids, IdLeq);
    ListsOnce(k.fqns, l.fqns, StrLeq);
  }
}
