// Co-change coupling (crates/cgx-diff/src/coupling.rs): the counting loop over a given list of
// commits, proved against what the counts are said to mean.
module Coupling {
  import opened Sequences
  import opened Sorting
  import opened Strings

  type Path = string
  type Pair = (Path, Path)

  datatype Commit = Commit(parents: nat, paths: seq<Path>)

  datatype Options = Options(maxFiles: nat, minCochanges: nat, limit: nat)

  datatype Counters = Counters(considered: nat, merges: nat, roots: nat, large: nat)

  // The paths of a commit, each once and in order.
  function PathsOf(c: Commit): seq<Path> {
    Dedup(Sort(c.paths, StrLeq))
  }

  predicate Single(c: Commit) {
    c.parents == 1
  }

  predicate TooLarge(max: nat, c: Commit) {
    max > 0 && |PathsOf(c)| > max
  }

  predicate Considered(max: nat, c: Commit) {
    Single(c) && !TooLarge(max, c)
  }

  // ---- what the counts mean ----

  function Touching(max: nat, f: Path): Commit -> bool {
    (c: Commit) => Considered(max, c) && f in c.paths
  }

  function TouchingBoth(max: nat, a: Path, b: Path): Commit -> bool {
    (c: Commit) => Considered(max, c) && a in c.paths && b in c.paths
  }

  predicate Before(a: Path, b: Path) {
    StrLeq(a, b) && a != b
  }

  // Each file's count is the number of considered commits that touch it.
  ghost predicate FileCounts(m: map<Path, nat>, cs: seq<Commit>, max: nat) {
    forall f :: Get(m, f) == Count(cs, Touching(max, f)) && (f in m ==> m[f] > 0)
  }

  // Each ordered pair's count is the number of considered commits that touch both.
  ghost predicate PairCounts(m: map<Pair, nat>, cs: seq<Commit>, max: nat) {
    forall a, b ::
      && Get(m, (a, b)) == (if Before(a, b) then Count(cs, TouchingBoth(max, a, b)) else 0)
      && ((a, b) in m ==> m[(a, b)] > 0)
  }

  ghost predicate CountersRight(k: Counters, cs: seq<Commit>, max: nat) {
    && k.considered == Count(cs, (c: Commit) => Considered(max, c))
    && k.merges == Count(cs, (c: Commit) => c.parents > 1)
    && k.roots == Count(cs, (c: Commit) => c.parents == 0)
    && k.large == Count(cs, (c: Commit) => Single(c) && TooLarge(max, c))
  }

  // ---- counting maps ----

  function Get<K>(m: map<K, nat>, k: K): nat {
    if k in m then m[k] else 0
  }

  function Bump<K>(m: map<K, nat>, k: K): map<K, nat> {
    m[k := Get(m, k) + 1]
  }

  ghost function Pick<K(!new)>(m: map<K, nat>): K
    requires m != map[]
  {
    var k :| k in m;
    k
  }

  // The sum of all counts.
  ghost function Total<K(!new)>(m: map<K, nat>): nat
    decreases |m|
  {
    if m == map[] then 0 else m[Pick(m)] + Total(m - {Pick(m)})
  }

  lemma {:induction false} TotalRemove<K(!new)>(m: map<K, nat>, k: K)
    requires k in m
    ensures Total(m) == m[k] + Total(m - {k})
    decreases |m|
  {
    var j := Pick(m);
    if j != k {
      TotalRemove(m - {j}, k);
      TotalRemove(m - {k}, j);
      assert (m - {j}) - {k} == (m - {k}) - {j};
    }
  }

  lemma TotalBump<K(!new)>(m: map<K, nat>, k: K)
    ensures Total(Bump(m, k)) == Total(m) + 1
  {
    var n := Bump(m, k);
    TotalRemove(n, k);
    if k in m {
      TotalRemove(m, k);
      assert n - {k} == m - {k};
    } else {
      assert n - {k} == m;
    }
  }

  // The increments of all considered commits: one per file, one per pair of files.
  function FileSteps(cs: seq<Commit>, max: nat): nat {
    if cs == [] then 0
    else
      var c := cs[|cs| - 1];
      FileSteps(cs[..|cs| - 1], max) + if Considered(max, c) then |PathsOf(c)| else 0
  }

  function Pairings(n: nat): nat {
    n * (n - 1) / 2
  }

  function PairSteps(cs: seq<Commit>, max: nat): nat {
    if cs == [] then 0
    else
      var c := cs[|cs| - 1];
      PairSteps(cs[..|cs| - 1], max) + if Considered(max, c) then Pairings(|PathsOf(c)|) else 0
  }

  lemma PathsLaws(c: Commit)
    ensures Strict(PathsOf(c), StrLeq) && forall f :: f in PathsOf(c) <==> f in c.paths
  {
    StrOrder();
    assert AntisymmetricOn(c.paths, StrLeq);
    SortedDistinct(c.paths, StrLeq);
  }

  lemma StrOrder()
    ensures Preorder(StrLeq) && forall s: seq<Path> :: AntisymmetricOn(s, StrLeq)
  {
    forall a, b, c
      ensures StrLeq(a, b) || StrLeq(b, a)
      ensures StrLeq(a, b) && StrLeq(b, a) ==> a == b
      ensures StrLeq(a, b) && StrLeq(b, c) ==> StrLeq(a, c)
    {
      StrTotal(a, b);
      if StrLeq(a, b) && StrLeq(b, c) {
        StrTransitive(a, b, c);
      }
    }
  }

  // ---- one commit ----

  method CountFiles(m0: map<Path, nat>, ps: seq<Path>) returns (m: map<Path, nat>)
    requires Strict(ps, StrLeq)
    ensures forall f :: Get(m, f) == Get(m0, f) + if f in ps then 1 else 0
    ensures Total(m) == Total(m0) + |ps|
    ensures (forall f | f in m0 :: m0[f] > 0) ==> forall f | f in m :: m[f] > 0
  {
    m := m0;
    for i := 0 to |ps|
      invariant forall f :: Get(m, f) == Get(m0, f) + if f in ps[..i] then 1 else 0
      invariant Total(m) == Total(m0) + i
      invariant (forall f | f in m0 :: m0[f] > 0) ==> forall f | f in m :: m[f] > 0
    {
      assert ps[..i + 1] == ps[..i] + [ps[i]] && ps[i] !in ps[..i];
      TotalBump(m, ps[i]);
      m := Bump(m, ps[i]);
    }
    assert ps[..|ps|] == ps;
  }

  // The pairs with `ps[i]` first.
  method CountRow(m0: map<Pair, nat>, ps: seq<Path>, i: nat) returns (m: map<Pair, nat>)
    requires Strict(ps, StrLeq) && i < |ps|
    ensures forall a, b :: Get(m, (a, b)) == Get(m0, (a, b)) + if a == ps[i] && b in ps[i + 1..] then 1 else 0
    ensures Total(m) == Total(m0) + |ps| - i - 1
    ensures (forall k | k in m0 :: m0[k] > 0) ==> forall k | k in m :: m[k] > 0
  {
    m := m0;
    for j := i + 1 to |ps|
      invariant forall a, b :: Get(m, (a, b)) == Get(m0, (a, b)) + if a == ps[i] && b in ps[i + 1..j] then 1 else 0
      invariant Total(m) == Total(m0) + j - i - 1
      invariant (forall k | k in m0 :: m0[k] > 0) ==> forall k | k in m :: m[k] > 0
    {
      assert ps[i + 1..j + 1] == ps[i + 1..j] + [ps[j]] && ps[j] !in ps[i + 1..j];
      TotalBump(m, (ps[i], ps[j]));
      m := Bump(m, (ps[i], ps[j]));
    }
    assert ps[i + 1..|ps|] == ps[i + 1..];
  }

  method CountPairs(m0: map<Pair, nat>, ps: seq<Path>) returns (m: map<Pair, nat>)
    requires Strict(ps, StrLeq)
    ensures forall a, b :: Get(m, (a, b)) == Get(m0, (a, b)) + if a in ps && b in ps && Before(a, b) then 1 else 0
    ensures Total(m) == Total(m0) + Pairings(|ps|)
    ensures (forall k | k in m0 :: m0[k] > 0) ==> forall k | k in m :: m[k] > 0
  {
    m := m0;
    for i := 0 to |ps|
      invariant forall a, b ::
        Get(m, (a, b)) == Get(m0, (a, b)) + if a in ps[..i] && b in ps && Before(a, b) then 1 else 0
      invariant 2 * (Total(m) - Total(m0)) == i * (2 * |ps| - i - 1)
      invariant (forall k | k in m0 :: m0[k] > 0) ==> forall k | k in m :: m[k] > 0
    {
      assert ps[..i + 1] == ps[..i] + [ps[i]] && ps[i] !in ps[..i];
      forall b ensures b in ps[i + 1..] <==> b in ps && Before(ps[i], b) {
        LaterIsBefore(ps, i, b);
      }
      RowSteps(|ps|, i);
      m := CountRow(m, ps, i);
    }
    assert ps[..|ps|] == ps;
    assert |ps| * (2 * |ps| - |ps| - 1) == |ps| * (|ps| - 1);
  }

  lemma RowSteps(n: nat, i: nat)
    ensures i * (2 * n - i - 1) + 2 * (n - i - 1) == (i + 1) * (2 * n - (i + 1) - 1)
  {
  }

  lemma LaterIsBefore(ps: seq<Path>, i: nat, b: Path)
    requires Strict(ps, StrLeq) && i < |ps|
    ensures b in ps[i + 1..] <==> b in ps && Before(ps[i], b)
  {
    if b in ps[i + 1..] {
      var j :| 0 <= j < |ps[i + 1..]| && ps[i + 1..][j] == b;
      assert ps[i + 1 + j] == b;
    }
    if b in ps && Before(ps[i], b) {
      var j :| 0 <= j < |ps| && ps[j] == b;
      if j <= i {
        assert j < i ==> StrLeq(b, ps[i]);
        StrTotal(ps[i], b);
        assert false;
      }
      assert ps[i + 1..][j - i - 1] == b;
    }
  }

  // ---- the whole loop ----

  datatype Tally = Tally(counters: Counters, perFile: map<Path, nat>, perPair: map<Pair, nat>)

  ghost predicate Right(t: Tally, cs: seq<Commit>, max: nat) {
    && CountersRight(t.counters, cs, max) && FileCounts(t.perFile, cs, max) && PairCounts(t.perPair, cs, max)
    && Total(t.perFile) == FileSteps(cs, max) && Total(t.perPair) == PairSteps(cs, max)
  }

  lemma CountersStep(k: Counters, cs: seq<Commit>, c: Commit, max: nat)
    requires CountersRight(k, cs, max)
    ensures CountersRight(
      if c.parents > 1 then k.(merges := k.merges + 1)
      else if c.parents == 0 then k.(roots := k.roots + 1)
      else if TooLarge(max, c) then k.(large := k.large + 1)
      else k.(considered := k.considered + 1), cs + [c], max)
  {
    assert (cs + [c])[..|cs|] == cs;
  }

  // One more commit has been counted, if `on`, for each of its files.
  ghost predicate FilesGrow(m: map<Path, nat>, m': map<Path, nat>, on: bool, c: Commit) {
    && (forall f :: Get(m', f) == Get(m, f) + if on && f in c.paths then 1 else 0)
    && forall f | f in m' :: m'[f] > 0
  }

  // And for each pair of them.
  ghost predicate PairsGrow(m: map<Pair, nat>, m': map<Pair, nat>, on: bool, c: Commit) {
    && (forall a, b ::
          Get(m', (a, b)) == Get(m, (a, b)) + if on && a in c.paths && b in c.paths && Before(a, b) then 1 else 0)
    && forall k | k in m' :: m'[k] > 0
  }

  lemma FilesStep(m: map<Path, nat>, m': map<Path, nat>, cs: seq<Commit>, c: Commit, max: nat)
    requires FileCounts(m, cs, max) && FilesGrow(m, m', Considered(max, c), c)
    ensures FileCounts(m', cs + [c], max)
  {
    forall f ensures Get(m', f) == Count(cs + [c], Touching(max, f)) {
      CountSnoc(cs, c, Touching(max, f));
    }
  }

  lemma PairsStep(m: map<Pair, nat>, m': map<Pair, nat>, cs: seq<Commit>, c: Commit, max: nat)
    requires PairCounts(m, cs, max) && PairsGrow(m, m', Considered(max, c), c)
    ensures PairCounts(m', cs + [c], max)
  {
    forall a, b
      ensures Get(m', (a, b)) == if Before(a, b) then Count(cs + [c], TouchingBoth(max, a, b)) else 0
    {
      CountSnoc(cs, c, TouchingBoth(max, a, b));
    }
  }

  lemma StepsSnoc(cs: seq<Commit>, c: Commit, max: nat)
    ensures FileSteps(cs + [c], max) == FileSteps(cs, max) + if Considered(max, c) then |PathsOf(c)| else 0
    ensures PairSteps(cs + [c], max) == PairSteps(cs, max) + if Considered(max, c) then Pairings(|PathsOf(c)|) else 0
  {
    assert (cs + [c])[..|cs|] == cs;
  }

  lemma Positive(m: map<Pair, nat>, cs: seq<Commit>, max: nat)
    requires PairCounts(m, cs, max)
    ensures forall p | p in m :: m[p] > 0
  {
    forall p | p in m ensures m[p] > 0 {
      assert p == (p.0, p.1);
    }
  }

  // A commit that does not count leaves the maps alone.
  lemma SkippedStep(t: Tally, k: Counters, cs: seq<Commit>, c: Commit, max: nat)
    requires Right(t, cs, max) && !Considered(max, c) && CountersRight(k, cs + [c], max)
    ensures Right(Tally(k, t.perFile, t.perPair), cs + [c], max)
  {
    Positive(t.perPair, cs, max);
    StepsSnoc(cs, c, max);
    FilesStep(t.perFile, t.perFile, cs, c, max);
    PairsStep(t.perPair, t.perPair, cs, c, max);
  }

  lemma CountedStep(t: Tally, t': Tally, cs: seq<Commit>, c: Commit, max: nat)
    requires Right(t, cs, max) && Considered(max, c) && CountersRight(t'.counters, cs + [c], max)
    requires FilesGrow(t.perFile, t'.perFile, true, c) && PairsGrow(t.perPair, t'.perPair, true, c)
    requires Total(t'.perFile) == Total(t.perFile) + |PathsOf(c)|
    requires Total(t'.perPair) == Total(t.perPair) + Pairings(|PathsOf(c)|)
    ensures Right(t', cs + [c], max)
  {
    StepsSnoc(cs, c, max);
    FilesStep(t.perFile, t'.perFile, cs, c, max);
    PairsStep(t.perPair, t'.perPair, cs, c, max);
  }

  method CountCommit(t0: Tally, c: Commit, max: nat, ghost cs: seq<Commit>) returns (t: Tally)
    requires Right(t0, cs, max)
    ensures Right(t, cs + [c], max)
  {
    var k := t0.counters;
    CountersStep(k, cs, c, max);
    var ps := PathsOf(c);
    if c.parents > 1 {
      t := t0.(counters := k.(merges := k.merges + 1));
      SkippedStep(t0, t.counters, cs, c, max);
    } else if c.parents == 0 {
      t := t0.(counters := k.(roots := k.roots + 1));
      SkippedStep(t0, t.counters, cs, c, max);
    } else if max > 0 && |ps| > max {
      t := t0.(counters := k.(large := k.large + 1));
      SkippedStep(t0, t.counters, cs, c, max);
    } else {
      t := CountPaths(t0, k.(considered := k.considered + 1), c, ps);
      Positive(t0.perPair, cs, max);
      CountedStep(t0, t, cs, c, max);
    }
  }

  // Counts the files of a considered commit and their pairs.
  method CountPaths(t0: Tally, k: Counters, c: Commit, ps: seq<Path>) returns (t: Tally)
    requires ps == PathsOf(c)
    ensures t.counters == k
    ensures (forall f | f in t0.perFile :: t0.perFile[f] > 0) ==> FilesGrow(t0.perFile, t.perFile, true, c)
    ensures (forall p | p in t0.perPair :: t0.perPair[p] > 0) ==> PairsGrow(t0.perPair, t.perPair, true, c)
    ensures Total(t.perFile) == Total(t0.perFile) + |ps| && Total(t.perPair) == Total(t0.perPair) + Pairings(|ps|)
  {
    PathsLaws(c);
    var perFile := CountFiles(t0.perFile, ps);
    var perPair := CountPairs(t0.perPair, ps);
    t := Tally(k, perFile, perPair);
  }

  method CountCommits(cs: seq<Commit>, max: nat) returns (t: Tally)
    ensures Right(t, cs, max)
  {
    t := Tally(Counters(0, 0, 0, 0), map[], map[]);
    for i := 0 to |cs|
      invariant Right(t, cs[..i], max)
    {
      assert cs[..i + 1] == cs[..i] + [cs[i]];
      t := CountCommit(t, cs[i], max, cs[..i]);
    }
    assert cs[..|cs|] == cs;
  }
}
