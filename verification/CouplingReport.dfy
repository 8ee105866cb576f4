// The coupling answer built from the counts (crates/cgx-diff/src/coupling.rs): threshold, order and
// limit, and what holds of every report.
module CouplingReport {
  import opened Sequences
  import opened Sorting
  import opened Strings
  import opened Coupling

  datatype PairRow = PairRow(fileA: string, fileB: string, cochanges: nat, changesA: nat, changesB: nat)

  // How a path is rendered; nothing is assumed of it.
  type Render = Path -> string

  // ---- the map's own order ----

  predicate PairLeq(p: Pair, q: Pair) {
    if p.0 != q.0 then StrLeq(p.0, q.0) else StrLeq(p.1, q.1)
  }

  lemma PairOrder()
    ensures Preorder(PairLeq) && Antisymmetric(PairLeq)
  {
    forall p, q, r
      ensures PairLeq(p, q) || PairLeq(q, p)
      ensures PairLeq(p, q) && PairLeq(q, p) ==> p == q
      ensures PairLeq(p, q) && PairLeq(q, r) ==> PairLeq(p, r)
    {
      StrTotal(p.0, q.0);
      StrTotal(p.1, q.1);
      StrTotal(q.0, r.0);
      StrTotal(q.1, r.1);
      if StrLeq(p.0, q.0) && StrLeq(q.0, r.0) {
        StrTransitive(p.0, q.0, r.0);
      }
      if StrLeq(p.1, q.1) && StrLeq(q.1, r.1) {
        StrTransitive(p.1, q.1, r.1);
      }
    }
  }

  // ---- the report ----

  function RowOf(t: Tally, render: Render, k: Pair): PairRow {
    PairRow(render(k.0), render(k.1), Get(t.perPair, k), Get(t.perFile, k.0), Get(t.perFile, k.1))
  }

  // Most co-changes first, then by rendered names.
  predicate RowLeq(x: PairRow, y: PairRow) {
    if x.cochanges != y.cochanges then x.cochanges > y.cochanges
    else if x.fileA != y.fileA then StrLeq(x.fileA, y.fileA)
    else StrLeq(x.fileB, y.fileB)
  }

  lemma RowOrder()
    ensures Preorder(RowLeq)
  {
    forall x, y, z
      ensures RowLeq(x, y) || RowLeq(y, x)
      ensures RowLeq(x, y) && RowLeq(y, z) ==> RowLeq(x, z)
    {
      StrTotal(x.fileA, y.fileA);
      StrTotal(x.fileB, y.fileB);
      StrTotal(y.fileA, z.fileA);
      StrTotal(y.fileB, z.fileB);
      if StrLeq(x.fileA, y.fileA) && StrLeq(y.fileA, z.fileA) {
        StrTransitive(x.fileA, y.fileA, z.fileA);
      }
      if StrLeq(x.fileB, y.fileB) && StrLeq(y.fileB, z.fileB) {
        StrTransitive(x.fileB, y.fileB, z.fileB);
      }
    }
  }

  function Reaches(t: Tally, min: nat): Pair -> bool {
    (k: Pair) => Get(t.perPair, k) >= min
  }

  function Candidates(t: Tally, o: Options, render: Render, ks: seq<Pair>): seq<PairRow> {
    Sort(Map(Filter(ks, Reaches(t, o.minCochanges)), (k: Pair) => RowOf(t, render, k)), RowLeq)
  }

  function Shown(rows: seq<PairRow>, limit: nat): seq<PairRow> {
    if 0 < limit < |rows| then rows[..limit] else rows
  }

  datatype Report = Report(counters: Counters, pairsTotal: nat, pairs: seq<PairRow>)

  function ReportOf(t: Tally, o: Options, render: Render, ks: seq<Pair>): Report {
    var rows := Candidates(t, o, render, ks);
    Report(t.counters, |rows|, Shown(rows, o.limit))
  }

  // The report on a list of commits: from their tally, its pairs walked in order.
  ghost predicate IsReport(r: Report, cs: seq<Commit>, o: Options, render: Render) {
    exists t, ks | Right(t, cs, o.maxFiles) && ListsKeys(ks, t.perPair.Keys, PairLeq) :: r == ReportOf(t, o, render, ks)
  }

  method CouplingOf(cs: seq<Commit>, o: Options, render: Render) returns (r: Report)
    ensures IsReport(r, cs, o, render)
  {
    var tally := CountCommits(cs, o.maxFiles);
    PairOrder();
    var keys := InOrder(tally.perPair.Keys, PairLeq);
    var kept: seq<Pair> := [];
    for i := 0 to |keys|
      invariant kept == Filter(keys[..i], Reaches(tally, o.minCochanges))
    {
      assert keys[..i + 1][..i] == keys[..i];
      if Get(tally.perPair, keys[i]) >= o.minCochanges {
        kept := kept + [keys[i]];
      }
    }
    assert keys[..|keys|] == keys;
    var rows := Sort(Map(kept, (k: Pair) => RowOf(tally, render, k)), RowLeq);
    r := Report(tally.counters, |rows|, Shown(rows, o.limit));
    assert r == ReportOf(tally, o, render, keys);
  }

  // ---- what holds of every report ----

  // A pair cannot change together more often than either file changes.
  lemma CochangesBounded(t: Tally, cs: seq<Commit>, max: nat, a: Path, b: Path)
    requires Right(t, cs, max)
    ensures Get(t.perPair, (a, b)) <= Get(t.perFile, a) && Get(t.perPair, (a, b)) <= Get(t.perFile, b)
  {
    CountMonotone(cs, TouchingBoth(max, a, b), Touching(max, a));
    CountMonotone(cs, TouchingBoth(max, a, b), Touching(max, b));
  }

  // Every commit falls under exactly one counter.
  lemma {:induction false} CountersPartition(k: Counters, cs: seq<Commit>, max: nat)
    requires CountersRight(k, cs, max)
    ensures k.considered + k.merges + k.roots + k.large == |cs|
    decreases |cs|
  {
    if cs != [] {
      var init := cs[..|cs| - 1];
      CountersPartition(Counters(Count(init, (c: Commit) => Considered(max, c)),
                                 Count(init, (c: Commit) => c.parents > 1),
                                 Count(init, (c: Commit) => c.parents == 0),
                                 Count(init, (c: Commit) => Single(c) && TooLarge(max, c))), init, max);
    }
  }

  // So a report with no commits under any counter means an empty range.
  lemma EmptyRangeIsExact(k: Counters, cs: seq<Commit>, max: nat)
    requires CountersRight(k, cs, max)
    ensures k.considered == 0 && k.merges == 0 && k.roots == 0 && k.large == 0 <==> cs == []
  {
    CountersPartition(k, cs, max);
  }

  // No pair that the limit drops has more co-changes than one it keeps.
  lemma KeptBeatsDropped(rows: seq<PairRow>, limit: nat, i: nat, j: nat)
    requires i < |Shown(Sort(rows, RowLeq), limit)| <= j < |rows|
    ensures Sort(rows, RowLeq)[i].cochanges >= Sort(rows, RowLeq)[j].cochanges
    ensures Shown(Sort(rows, RowLeq), limit)[i] == Sort(rows, RowLeq)[i]
  {
    RowOrder();
    SortSorted(rows, RowLeq);
    assert RowLeq(Sort(rows, RowLeq)[i], Sort(rows, RowLeq)[j]);
  }

  // The tally depends on which commits there are, not on the order they are walked in.
  lemma WalkOrderIsIrrelevant(t: Tally, u: Tally, cs: seq<Commit>, ds: seq<Commit>, max: nat)
    requires multiset(cs) == multiset(ds) && Right(t, cs, max) && Right(u, ds, max)
    ensures t == u
  {
    CountPermuted(cs, ds, (c: Commit) => Considered(max, c));
    CountPermuted(cs, ds, (c: Commit) => c.parents > 1);
    CountPermuted(cs, ds, (c: Commit) => c.parents == 0);
    CountPermuted(cs, ds, (c: Commit) => Single(c) && TooLarge(max, c));
    forall f ensures Get(t.perFile, f) == Get(u.perFile, f) {
      CountPermuted(cs, ds, Touching(max, f));
    }
    SameCounts(t.perFile, u.perFile);
    SamePairs(t, u, cs, ds, max);
  }

  lemma SamePairs(t: Tally, u: Tally, cs: seq<Commit>, ds: seq<Commit>, max: nat)
    requires multiset(cs) == multiset(ds) && PairCounts(t.perPair, cs, max) && PairCounts(u.perPair, ds, max)
    ensures t.perPair == u.perPair
  {
    forall k: Pair ensures Get(t.perPair, k) == Get(u.perPair, k) {
      var (a, b) := k;
      CountPermuted(cs, ds, TouchingBoth(max, a, b));
      assert Get(t.perPair, (a, b)) == Get(u.perPair, (a, b));
    }
    forall k: Pair | k in t.perPair ensures t.perPair[k] > 0 {
      assert (k.0, k.1) in t.perPair;
    }
    forall k: Pair | k in u.perPair ensures u.perPair[k] > 0 {
      assert (k.0, k.1) in u.perPair;
    }
    SameCounts(t.perPair, u.perPair);
  }

  lemma SameCounts<K(!new)>(m: map<K, nat>, n: map<K, nat>)
    requires forall k :: Get(m, k) == Get(n, k)
    requires (forall k | k in m :: m[k] > 0) && forall k | k in n :: n[k] > 0
    ensures m == n
  {
    forall k ensures k in m <==> k in n {
      assert Get(m, k) == Get(n, k);
    }
    forall k | k in m ensures m[k] == n[k] {
      assert Get(m, k) == Get(n, k);
    }
  }

  // Nor does the report.
  lemma ReportIsReproducible(r: Report, q: Report, cs: seq<Commit>, ds: seq<Commit>, o: Options, render: Render)
    requires multiset(cs) == multiset(ds) && IsReport(r, cs, o, render) && IsReport(q, ds, o, render)
    ensures r == q
  {
    var t, ks :| Right(t, cs, o.maxFiles) && ListsKeys(ks, t.perPair.Keys, PairLeq) && r == ReportOf(t, o, render, ks);
    var u, ls :| Right(u, ds, o.maxFiles) && ListsKeys(ls, u.perPair.Keys, PairLeq) && q == ReportOf(u, o, render, ls);
    WalkOrderIsIrrelevant(t, u, cs, ds, o.maxFiles);
    PairOrder();
    ListsOnce(ks, ls, PairLeq);
  }
}
