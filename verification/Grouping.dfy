// RETURN with aggregates (crates/cgx-cql/src/eval.rs, project_grouped): grouping the bindings by
// their non-aggregate values loses and doubles none.
module Grouping {
  import opened Prelude
  import opened Sequences
  import opened Projection

  // The key of a binding: its values of the non-aggregate items.
  type KeyFn = Binding -> Row

  // The bindings of one group, in stream order.
  function Members(bs: seq<Binding>, key: KeyFn, k: Row): seq<Binding> {
    if bs == [] then []
    else
      var b := bs[|bs| - 1];
      Members(bs[..|bs| - 1], key, k) + if key(b) == k then [b] else []
  }

  // The keys in the order they are first seen.
  function FirstSeen(bs: seq<Binding>, key: KeyFn): seq<Row> {
    if bs == [] then []
    else
      var ks, k := FirstSeen(bs[..|bs| - 1], key), key(bs[|bs| - 1]);
      if k in ks then ks else ks + [k]
  }

  function GroupsOf(bs: seq<Binding>, key: KeyFn, ks: seq<Row>): seq<seq<Binding>> {
    seq(|ks|, i requires 0 <= i < |ks| => Members(bs, key, ks[i]))
  }

  // The total key function of keys that all evaluate.
  function KeyBy(eval: Eval): KeyFn {
    (b: Binding) => if eval(b).Some? then eval(b).value else []
  }

  method Group(bs: seq<Binding>, eval: Eval) returns (r: Option<seq<seq<Binding>>>)
    ensures r.Some? <==> AllEvaluate(eval, bs)
    ensures r.Some? ==> r.value == GroupsOf(bs, KeyBy(eval), FirstSeen(bs, KeyBy(eval)))
  {
    ghost var key := KeyBy(eval);
    var keys: seq<Row>, groups: seq<seq<Binding>> := [], [];
    for i := 0 to |bs|
      invariant AllEvaluate(eval, bs[..i])
      invariant keys == FirstSeen(bs[..i], key) && groups == GroupsOf(bs[..i], key, keys)
    {
      var k := eval(bs[i]);
      if k.None? {
        return None;
      }
      keys, groups := PutInGroup(bs[..i], bs[i], k.value, key, keys, groups);
      assert bs[..i + 1] == bs[..i] + [bs[i]];
    }
    assert bs[..|bs|] == bs;
    return Some(groups);
  }

  // One turn of the loop over the bindings.
  method PutInGroup(ghost init: seq<Binding>, b: Binding, k: Row, ghost key: KeyFn, keys0: seq<Row>,
                    groups0: seq<seq<Binding>>)
    returns (keys: seq<Row>, groups: seq<seq<Binding>>)
    requires keys0 == FirstSeen(init, key) && groups0 == GroupsOf(init, key, keys0) && k == key(b)
    ensures keys == FirstSeen(init + [b], key) && groups == GroupsOf(init + [b], key, keys)
  {
    keys, groups := keys0, groups0;
    SeenOnce(init, key);
    assert (init + [b])[..|init|] == init;
    var j := 0;
    while j < |keys| && keys[j] != k
      invariant j <= |keys| && forall n | 0 <= n < j :: keys[n] != k
    {
      j := j + 1;
    }
    if j < |keys| {
      JoinsGroup(init, b, key, keys, j);
      groups := groups[j := groups[j] + [b]];
    } else {
      UnseenKey(init, key, k);
      OpensGroup(init, b, key, keys);
      keys, groups := keys + [k], groups + [[b]];
    }
  }

  // Group keys are pairwise distinct, and they are exactly the keys there are.
  lemma {:induction false} SeenOnce(bs: seq<Binding>, key: KeyFn)
    ensures Distinct(FirstSeen(bs, key))
    ensures forall k :: k in FirstSeen(bs, key) <==> exists i | 0 <= i < |bs| :: key(bs[i]) == k
    decreases |bs|
  {
    if bs != [] {
      var init := bs[..|bs| - 1];
      SeenOnce(init, key);
      assert forall i | 0 <= i < |init| :: bs[i] == init[i];
      forall k ensures k in FirstSeen(bs, key) <==> exists i | 0 <= i < |bs| :: key(bs[i]) == k {
        if i :| 0 <= i < |bs| && key(bs[i]) == k {
          assert i < |init| ==> key(init[i]) == k;
        }
        if k in FirstSeen(init, key) {
          var i :| 0 <= i < |init| && key(init[i]) == k;
          assert key(bs[i]) == k;
        }
      }
    }
  }

  lemma SeenSome(bs: seq<Binding>, key: KeyFn)
    requires bs != []
    ensures FirstSeen(bs, key) != []
  {
    SeenOnce(bs, key);
    assert key(bs[0]) in FirstSeen(bs, key);
  }

  lemma JoinsGroup(init: seq<Binding>, b: Binding, key: KeyFn, ks: seq<Row>, j: nat)
    requires Distinct(ks) && j < |ks| && ks[j] == key(b)
    ensures var was := GroupsOf(init, key, ks);
      GroupsOf(init + [b], key, ks) == was[j := was[j] + [b]]
  {
    assert (init + [b])[..|init|] == init;
    var was := GroupsOf(init, key, ks);
    var now, joined := GroupsOf(init + [b], key, ks), was[j := was[j] + [b]];
    forall i | 0 <= i < |ks| ensures now[i] == joined[i] {
      assert i != j ==> ks[i] != key(b);
    }
    assert now == joined;
  }

  lemma OpensGroup(init: seq<Binding>, b: Binding, key: KeyFn, ks: seq<Row>)
    requires key(b) !in ks && Members(init, key, key(b)) == []
    ensures GroupsOf(init + [b], key, ks + [key(b)]) == GroupsOf(init, key, ks) + [[b]]
  {
    assert (init + [b])[..|init|] == init;
    var now, more := GroupsOf(init + [b], key, ks + [key(b)]), GroupsOf(init, key, ks) + [[b]];
    forall i | 0 <= i < |now| ensures now[i] == more[i] {
      assert i < |ks| ==> ks[i] in ks;
    }
    assert now == more;
  }

  lemma UnseenKey(bs: seq<Binding>, key: KeyFn, k: Row)
    requires k !in FirstSeen(bs, key)
    ensures Members(bs, key, k) == []
  {
    SeenOnce(bs, key);
    NoMembers(bs, key, k);
  }

  lemma {:induction false} NoMembers(bs: seq<Binding>, key: KeyFn, k: Row)
    requires forall i | 0 <= i < |bs| :: key(bs[i]) != k
    ensures Members(bs, key, k) == []
    decreases |bs|
  {
    if bs != [] {
      NoMembers(bs[..|bs| - 1], key, k);
    }
  }

  // A binding lies in its key's group as often as in the stream, and in no other.
  lemma {:induction false} MembersCount(bs: seq<Binding>, key: KeyFn, k: Row, b: Binding)
    ensures multiset(Members(bs, key, k))[b] == if key(b) == k then multiset(bs)[b] else 0
    decreases |bs|
  {
    if bs != [] {
      var init := bs[..|bs| - 1];
      assert bs == init + [bs[|bs| - 1]];
      MembersCount(init, key, k, b);
    }
  }

  function Total(groups: seq<seq<Binding>>): nat {
    if groups == [] then 0 else Total(groups[..|groups| - 1]) + |groups[|groups| - 1]|
  }

  // The counts of all groups sum to the number of bindings.
  lemma {:induction false} CountsSum(bs: seq<Binding>, key: KeyFn, ks: seq<Row>)
    requires Distinct(ks) && forall i | 0 <= i < |bs| :: key(bs[i]) in ks
    ensures Total(GroupsOf(bs, key, ks)) == |bs|
    decreases |bs|
  {
    if bs == [] {
      EmptyTotal(key, ks);
    } else {
      var init, b := bs[..|bs| - 1], bs[|bs| - 1];
      CountsSum(init, key, ks);
      assert key(bs[|bs| - 1]) in ks;
      var j :| 0 <= j < |ks| && ks[j] == key(b);
      var was := GroupsOf(init, key, ks);
      assert bs == init + [b];
      JoinsGroup(init, b, key, ks, j);
      TotalUpdate(was, j, was[j] + [b]);
    }
  }

  lemma {:induction false} EmptyTotal(key: KeyFn, ks: seq<Row>)
    ensures Total(GroupsOf([], key, ks)) == 0
    decreases |ks|
  {
    if ks != [] {
      EmptyTotal(key, ks[..|ks| - 1]);
      var gs := GroupsOf([], key, ks);
      assert gs[..|gs| - 1] == GroupsOf([], key, ks[..|ks| - 1]);
    }
  }

  lemma {:induction false} TotalUpdate(gs: seq<seq<Binding>>, j: nat, g: seq<Binding>)
    requires j < |gs|
    ensures Total(gs[j := g]) == Total(gs) - |gs[j]| + |g|
    decreases |gs|
  {
    var n := |gs| - 1;
    if j < n {
      TotalUpdate(gs[..n], j, g);
      assert gs[j := g][..n] == gs[..n][j := g];
    } else {
      assert gs[j := g][..n] == gs[..n];
    }
  }

  // Every binding lies in exactly one group, its own key's, as often as in the stream; no group is
  // empty, and none is counted twice.
  lemma GroupingConserves(bs: seq<Binding>, key: KeyFn, i: nat, b: Binding)
    ensures var ks := FirstSeen(bs, key); var gs := GroupsOf(bs, key, ks);
      && Distinct(ks)
      && (b in bs ==> key(b) in ks)
      && (i < |ks| ==> gs[i] != [] && multiset(gs[i])[b] == if key(b) == ks[i] then multiset(bs)[b] else 0)
      && Total(gs) == |bs|
  {
    var ks := FirstSeen(bs, key);
    SeenOnce(bs, key);
    CountsSum(bs, key, ks);
    if i < |ks| {
      assert ks[i] in ks;
      var j :| 0 <= j < |bs| && key(bs[j]) == ks[i];
      MembersCount(bs, key, ks[i], b);
      MembersCount(bs, key, ks[i], bs[j]);
      assert bs[j] in multiset(bs);
    }
  }

  // ---- rearranged streams ----

  lemma SameMembers(s: seq<Binding>, t: seq<Binding>, key: KeyFn, k: Row)
    requires multiset(s) == multiset(t)
    ensures multiset(Members(s, key, k)) == multiset(Members(t, key, k))
  {
    forall b ensures multiset(Members(s, key, k))[b] == multiset(Members(t, key, k))[b] {
      MembersCount(s, key, k, b);
      MembersCount(t, key, k, b);
    }
  }

  lemma SameKeys(s: seq<Binding>, t: seq<Binding>, key: KeyFn)
    requires multiset(s) == multiset(t)
    ensures multiset(FirstSeen(s, key)) == multiset(FirstSeen(t, key))
  {
    SeenOnce(s, key);
    SeenOnce(t, key);
    var a, b := FirstSeen(s, key), FirstSeen(t, key);
    forall k ensures multiset(a)[k] == multiset(b)[k] {
      KeyIn(s, t, key, k);
      KeyIn(t, s, key, k);
      DistinctCount(a, k);
      DistinctCount(b, k);
    }
  }

  lemma KeyIn(s: seq<Binding>, t: seq<Binding>, key: KeyFn, k: Row)
    requires multiset(s) == multiset(t)
    ensures k in FirstSeen(s, key) ==> k in FirstSeen(t, key)
  {
    SeenOnce(s, key);
    SeenOnce(t, key);
    if k in FirstSeen(s, key) {
      var i :| 0 <= i < |s| && key(s[i]) == k;
      assert s[i] in multiset(t);
      var j :| 0 <= j < |t| && t[j] == s[i];
    }
  }
}
