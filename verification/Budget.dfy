// Printing under a row budget, as both forest renderers do (crates/cgx-cli/src/forest.rs,
// FullWalk): what a budget keeps of a listing and what the truncation marker counts.
module Budget {
  import opened Graph
  import opened Rows

  const DEFAULT_TREE_BUDGET: nat := 10_000

  datatype Line = RootLine(node: NodeId) | ChildLine(row: Row)

  function Lines(rows: seq<Row>): seq<Line> {
    seq(|rows|, i requires 0 <= i < |rows| => ChildLine(rows[i]))
  }

  // What a walk has printed, what it may still print, and what it has tallied as cut.
  datatype Progress = Progress(out: seq<Line>, budget: nat, more: nat)

  function Emit(p: Progress, rows: seq<Row>): Progress {
    Progress(p.out + Lines(Take(rows, p.budget)), p.budget - |Take(rows, p.budget)|,
             p.more + Frontier(Cut(rows, p.budget)))
  }

  lemma LinesAppend(s: seq<Row>, t: seq<Row>)
    ensures Lines(s + t) == Lines(s) + Lines(t)
  {
  }

  // One sibling: past the budget it only counts; otherwise its row is printed and its subtree
  // goes on with what is left.
  lemma EmitStep(p: Progress, before: seq<Row>, t: Tree, d: nat)
    requires AtLeast(before, d) && Hangs([t], d)
    ensures Emit(p, before + Flat([t])) == AfterSibling(Emit(p, before), t)
  {
    CutStep(before, t, d, p.budget);
    var all := before + Flat([t]);
    EmitKept(p, before);
    if p.budget > |before| {
      EmitWithin(p, before, t.row, Flat(t.kids), all);
    } else {
      assert Take(all, p.budget) == Take(before, p.budget);
    }
  }

  // A listing within the budget is printed whole and leaves nothing cut.
  lemma EmitKept(p: Progress, rows: seq<Row>)
    ensures p.budget >= |rows| ==> Emit(p, rows) == Progress(p.out + Lines(rows), p.budget - |rows|, p.more)
    ensures p.budget <= |rows| ==> Emit(p, rows).budget == 0
  {
    if p.budget >= |rows| {
      assert Take(rows, p.budget) == rows && Cut(rows, p.budget) == [];
    }
  }

  lemma EmitWithin(p: Progress, before: seq<Row>, row: Row, kids: seq<Row>, all: seq<Row>)
    requires p.budget > |before|
    requires var left := p.budget - |before| - 1;
      && Take(all, p.budget) == before + [row] + Take(kids, left)
      && Cut(all, p.budget) == Cut(kids, left)
    ensures Emit(p, all)
         == Emit(Progress(p.out + Lines(before) + [ChildLine(row)], p.budget - |before| - 1, p.more), kids)
  {
    var left := p.budget - |before| - 1;
    LinesAppend(before, [row]);
    LinesAppend(before + [row], Take(kids, left));
    assert Lines([row]) == [ChildLine(row)];
  }

  function AfterSibling(q: Progress, t: Tree): Progress {
    if q.budget == 0 then Progress(q.out, 0, q.more + 1)
    else Emit(Progress(q.out + [ChildLine(t.row)], q.budget - 1, q.more), Flat(t.kids))
  }

  lemma EmitNothing(p: Progress)
    ensures Emit(p, Flat([])) == p
  {
    assert Lines([]) == [];
  }

  lemma Sibling(p: Progress, ts: seq<Tree>, i: nat, d: nat)
    requires i < |ts| && Hangs(ts, d)
    ensures Emit(p, Flat(ts[..i + 1])) == AfterSibling(Emit(p, Flat(ts[..i])), ts[i])
  {
    assert ts[..i + 1] == ts[..i] + [ts[i]];
    FlatAppend(ts[..i], [ts[i]]);
    FlatDepth(ts[..i], d);
    EmitStep(p, Flat(ts[..i]), ts[i], d);
  }

  // ---- whole listings ----

  // One root and the trees printed under it.
  datatype Section = Section(root: NodeId, trees: seq<Tree>)

  function AllTrees(ss: seq<Section>): seq<Tree> {
    if ss == [] then [] else AllTrees(ss[..|ss| - 1]) + ss[|ss| - 1].trees
  }

  function SectionLines(s: Section): seq<Line> {
    [RootLine(s.root)] + Lines(Flat(s.trees))
  }

  // The listing without a budget: each root followed by its rows.
  function Listing(ss: seq<Section>): seq<Line> {
    if ss == [] then [] else Listing(ss[..|ss| - 1]) + SectionLines(ss[|ss| - 1])
  }

  predicate WellHung(ss: seq<Section>) {
    forall i | 0 <= i < |ss| :: Hangs(ss[i].trees, 0)
  }

  // What a budget of `b` keeps of a listing: every root line and the first `b` child lines.
  function Keep(s: seq<Line>, b: nat): seq<Line> {
    if s == [] then []
    else if s[0].RootLine? then [s[0]] + Keep(s[1..], b)
    else if b > 0 then [s[0]] + Keep(s[1..], b - 1)
    else Keep(s[1..], 0)
  }

  function Children(s: seq<Line>): nat {
    if s == [] then 0 else (if s[0].ChildLine? then 1 else 0) + Children(s[1..])
  }

  function Less(b: nat, n: nat): nat {
    if b < n then 0 else b - n
  }

  lemma {:induction false} KeepAppend(s: seq<Line>, t: seq<Line>, b: nat)
    ensures Keep(s + t, b) == Keep(s, b) + Keep(t, Less(b, Children(s)))
    ensures Children(s + t) == Children(s) + Children(t)
    decreases |s|
  {
    if s == [] {
      assert s + t == t;
    } else {
      assert (s + t)[1..] == s[1..] + t;
      KeepAppend(s[1..], t, if s[0].RootLine? then b else Less(b, 1));
    }
  }

  lemma {:induction false} KeepRows(rows: seq<Row>, b: nat)
    ensures Keep(Lines(rows), b) == Lines(Take(rows, b))
    ensures Children(Lines(rows)) == |rows|
    decreases |rows|
  {
    if rows != [] {
      KeepRows(rows[1..], Less(b, 1));
      assert Lines(rows)[1..] == Lines(rows[1..]);
      if b > 0 {
        assert Take(rows, b) == [rows[0]] + Take(rows[1..], b - 1);
        LinesAppend([rows[0]], Take(rows[1..], b - 1));
        assert Lines([rows[0]]) == [ChildLine(rows[0])];
      } else {
        assert Take(rows, b) == [] && Take(rows[1..], 0) == [];
        assert Lines([]) == [];
      }
    }
  }

  lemma KeepRoot(root: NodeId, rows: seq<Row>, b: nat)
    ensures Keep([RootLine(root)] + Lines(rows), b) == [RootLine(root)] + Lines(Take(rows, b))
    ensures Children([RootLine(root)] + Lines(rows)) == |rows|
  {
    var s := [RootLine(root)] + Lines(rows);
    assert s[1..] == Lines(rows);
    KeepRows(rows, b);
  }

  lemma {:induction false} ListingRows(ss: seq<Section>)
    ensures Children(Listing(ss)) == |Flat(AllTrees(ss))|
    ensures WellHung(ss) ==> Hangs(AllTrees(ss), 0)
    decreases |ss|
  {
    if ss != [] {
      var init, s := ss[..|ss| - 1], ss[|ss| - 1];
      ListingRows(init);
      FlatAppend(AllTrees(init), s.trees);
      KeepRoot(s.root, Flat(s.trees), 0);
      KeepAppend(Listing(init), SectionLines(s), 0);
    }
  }

  // A walk's progress after the given sections, from a fresh budget `b`.
  function After(ss: seq<Section>, b: nat): Progress {
    var rows := Flat(AllTrees(ss));
    Progress(Keep(Listing(ss), b), Less(b, |rows|), Frontier(Cut(rows, b)))
  }

  function WithRoot(p: Progress, root: NodeId): Progress {
    Progress(p.out + [RootLine(root)], p.budget, p.more)
  }

  // Printing root after root with the budget left over cuts the listing as a whole.
  lemma OneMoreRoot(ss: seq<Section>, s: Section, b: nat)
    requires WellHung(ss + [s])
    ensures After(ss + [s], b) == Emit(WithRoot(After(ss, b), s.root), Flat(s.trees))
  {
    var was, more, listing := AllTrees(ss), s.trees, Listing(ss);
    UnfoldSections(ss, s);
    ListingRows(ss);
    FlatAppend(was, more);
    FlatDepth(was, 0);
    CutAppend(Flat(was), more, 0, b);
    KeepAppend(listing, SectionLines(s), b);
    KeepRoot(s.root, Flat(more), Less(b, Children(listing)));
    Continues(listing, Flat(was), Flat(more), s.root, b);
  }

  lemma UnfoldSections(ss: seq<Section>, s: Section)
    ensures AllTrees(ss + [s]) == AllTrees(ss) + s.trees
    ensures Listing(ss + [s]) == Listing(ss) + SectionLines(s)
    ensures WellHung(ss + [s]) ==> WellHung(ss) && Hangs(s.trees, 0)
  {
    var all := ss + [s];
    assert all[..|all| - 1] == ss && all[|all| - 1] == s;
    assert forall i | 0 <= i < |ss| :: all[i] == ss[i];
  }

  lemma Continues(listing: seq<Line>, was: seq<Row>, more: seq<Row>, root: NodeId, b: nat)
    ensures var left := Less(b, |was|);
      Emit(WithRoot(Progress(Keep(listing, b), left, Frontier(Cut(was, b))), root), more)
      == Progress(Keep(listing, b) + ([RootLine(root)] + Lines(Take(more, left))), Less(b, |was + more|),
                  Frontier(Cut(was, b)) + Frontier(Cut(more, left)))
  {
  }

  // ---- what the reader of the output can rely on ----

  function RootsOf(s: seq<Line>): seq<NodeId> {
    if s == [] then []
    else if s[0].RootLine? then [s[0].node] + RootsOf(s[1..])
    else RootsOf(s[1..])
  }

  function RowsOf(s: seq<Line>): seq<Row> {
    if s == [] then []
    else if s[0].ChildLine? then [s[0].row] + RowsOf(s[1..])
    else RowsOf(s[1..])
  }

  // A budget cuts child rows from the end of the whole listing and nothing else.
  lemma {:induction false} KeepIsPrefix(s: seq<Line>, b: nat)
    ensures RowsOf(Keep(s, b)) == Take(RowsOf(s), b)
    ensures RootsOf(Keep(s, b)) == RootsOf(s)
    ensures |RowsOf(s)| == Children(s)
    decreases |s|
  {
    if s != [] {
      var head, tail := s[0], s[1..];
      var c := if head.RootLine? then b else Less(b, 1);
      KeepIsPrefix(tail, c);
      if head.RootLine? || b > 0 {
        var k := [head] + Keep(tail, c);
        assert Keep(s, b) == k && k[1..] == Keep(tail, c);
      }
    }
  }

  // The marker appears exactly when something was cut, and never claims more than was cut.
  lemma TruncationIsHonest(ss: seq<Section>, b: nat)
    ensures var p, total := After(ss, b), |Flat(AllTrees(ss))|;
      && RootsOf(p.out) == RootsOf(Listing(ss))
      && RowsOf(p.out) == Take(RowsOf(Listing(ss)), b)
      && |RowsOf(p.out)| == (if b < total then b else total)
      && (p.more > 0 <==> total > b)
      && p.more <= Less(total, b)
  {
    FrontierBounds(Cut(Flat(AllTrees(ss)), b));
    ListingRows(ss);
    KeepIsPrefix(Listing(ss), b);
  }
}
