// Chained patterns `(a)-[r]->(b)-[s]->(c)`: the plans, run one after the other, enumerate exactly
// the written chains (crates/cgx-cql/src/lower.rs, lower_pattern_chain; crates/cgx-cql/src/eval.rs,
// eval_match).
module Chains {
  import opened Prelude
  import opened Graph
  import opened CodeGraph
  import opened Lowering
  import opened BindingStream
  import opened Hops

  // A walk lists the hops of the steps taken so far.
  type Walk = seq<Hop>

  // ---- the enumeration, on walks ----

  // Where the next step starts: anywhere its anchors allow, or where the walk has got to.
  function NextAnchors(env: Env, w: Walk): seq<NodeId> {
    if w == [] then env.anchors else [w[|w| - 1].peer]
  }

  function Longer(w: Walk, hs: seq<Hop>): seq<Walk> {
    seq(|hs|, i requires 0 <= i < |hs| => w + [hs[i]])
  }

  function ExtendAll(g: GraphView, plan: PatternPlan, env: Env, ws: seq<Walk>): seq<Walk> {
    if ws == [] then []
    else
      var w := ws[|ws| - 1];
      ExtendAll(g, plan, env, ws[..|ws| - 1]) + Longer(w, HopsFrom(g, plan, env, NextAnchors(env, w)))
  }

  function Walks(g: GraphView, plans: seq<PatternPlan>, envs: seq<Env>): seq<Walk>
    requires |envs| == |plans|
  {
    var n := |plans| - 1;
    if plans == [] then [[]] else ExtendAll(g, plans[n], envs[n], Walks(g, plans[..n], envs[..n]))
  }

  // ---- the same, on bindings ----

  function BindWalk(base: Binding, plans: seq<PatternPlan>, w: Walk): Binding
    requires |w| == |plans|
  {
    if w == [] then base
    else BindHop(BindWalk(base, plans[..|plans| - 1], w[..|w| - 1]), plans[|plans| - 1], w[|w| - 1])
  }

  function RowsAfter(g: GraphView, plans: seq<PatternPlan>, envs: seq<Env>, input: seq<Binding>): seq<Binding>
    requires |envs| == |plans|
  {
    var n := |plans| - 1;
    if plans == [] then input else AllRows(g, plans[n], envs[n], RowsAfter(g, plans[..n], envs[..n], input))
  }

  // The plans of one clause, run in order over the stream.
  method EvalPlans(g: GraphView, plans: seq<PatternPlan>, envs: seq<Env>, input: seq<Binding>)
    returns (out: seq<Binding>)
    requires |envs| == |plans| && forall i | 0 <= i < |plans| :: plans[i].cardinality.SingleHop?
    ensures out == RowsAfter(g, plans, envs, input)
  {
    out := input;
    for i := 0 to |plans|
      invariant out == RowsAfter(g, plans[..i], envs[..i], input)
    {
      assert plans[..i + 1][..i] == plans[..i] && envs[..i + 1][..i] == envs[..i];
      var s := new Stream(None);
      s.ExpandPattern(g, plans[i], envs[i], out);
      out := s.out;
    }
    assert plans[..|plans|] == plans && envs[..|plans|] == envs;
  }

  // Each step after the first is joined on the variable the step before has bound to its peer, and
  // binds nothing else to it.
  predicate Joined(plans: seq<PatternPlan>) {
    && (forall i | 0 <= i < |plans| :: plans[i].cardinality.SingleHop? && plans[i].pathVar.None?)
    && (plans != [] ==> plans[0].anchorBoundVar.None?)
    && forall i | 0 < i < |plans| :: JoinedTo(plans[i - 1], plans[i])
  }

  predicate JoinedTo(was: PatternPlan, next: PatternPlan) {
    next.anchorBoundVar.Some? && was.peerVar == next.anchorBoundVar && was.relVar != was.peerVar
  }

  lemma JoinVariable(base: Binding, plans: seq<PatternPlan>, w: Walk, env: Env)
    requires plans != [] && Joined(plans) && |w| == |plans| - 1
    ensures var init := plans[..|plans| - 1];
      Anchors(plans[|plans| - 1], env, BindWalk(base, init, w)) == NextAnchors(env, w)
  {
    var k := |plans| - 1;
    if k > 0 {
      assert JoinedTo(plans[k - 1], plans[k]);
      var init := plans[..k];
      assert init[|init| - 1] == plans[k - 1];
      var b := BindWalk(base, init, w);
      assert b == BindHop(BindWalk(base, init[..|init| - 1], w[..|w| - 1]), plans[k - 1], w[|w| - 1]);
    }
  }

  function BindWalks(base: Binding, plans: seq<PatternPlan>, ws: seq<Walk>): seq<Binding>
    requires forall i | 0 <= i < |ws| :: |ws[i]| == |plans|
  {
    seq(|ws|, i requires 0 <= i < |ws| => BindWalk(base, plans, ws[i]))
  }

  predicate AllOfLength(ws: seq<Walk>, n: nat) {
    forall i | 0 <= i < |ws| :: |ws[i]| == n
  }

  lemma {:induction false} ExtendLength(g: GraphView, plan: PatternPlan, env: Env, ws: seq<Walk>, n: nat)
    requires AllOfLength(ws, n)
    ensures AllOfLength(ExtendAll(g, plan, env, ws), n + 1)
    decreases |ws|
  {
    if ws != [] {
      ExtendLength(g, plan, env, ws[..|ws| - 1], n);
    }
  }

  lemma {:induction false} WalkLength(g: GraphView, plans: seq<PatternPlan>, envs: seq<Env>)
    requires |envs| == |plans|
    ensures AllOfLength(Walks(g, plans, envs), |plans|)
    decreases |plans|
  {
    if plans != [] {
      var n := |plans| - 1;
      WalkLength(g, plans[..n], envs[..n]);
      ExtendLength(g, plans[n], envs[n], Walks(g, plans[..n], envs[..n]), n);
    }
  }

  lemma LongerBinds(base: Binding, plans: seq<PatternPlan>, w: Walk, hs: seq<Hop>)
    requires plans != [] && |w| == |plans| - 1
    ensures var init, plan := plans[..|plans| - 1], plans[|plans| - 1];
      BindWalks(base, plans, Longer(w, hs)) == HopRows(plan, BindWalk(base, init, w), hs)
  {
    var init, plan := plans[..|plans| - 1], plans[|plans| - 1];
    forall i | 0 <= i < |hs|
      ensures BindWalk(base, plans, w + [hs[i]]) == BindHop(BindWalk(base, init, w), plan, hs[i])
    {
      assert (w + [hs[i]])[..|w|] == w;
    }
  }

  lemma BindWalksAppend(base: Binding, plans: seq<PatternPlan>, s: seq<Walk>, t: seq<Walk>)
    requires AllOfLength(s, |plans|) && AllOfLength(t, |plans|)
    ensures AllOfLength(s + t, |plans|)
    ensures BindWalks(base, plans, s + t) == BindWalks(base, plans, s) + BindWalks(base, plans, t)
  {
  }

  lemma BindWalksSnoc(base: Binding, plans: seq<PatternPlan>, ws: seq<Walk>, w: Walk)
    requires AllOfLength(ws, |plans|) && |w| == |plans|
    ensures AllOfLength(ws + [w], |plans|)
    ensures BindWalks(base, plans, ws + [w]) == BindWalks(base, plans, ws) + [BindWalk(base, plans, w)]
  {
  }

  // One walk's continuations are its binding's rows.
  lemma OneWalk(g: GraphView, base: Binding, plans: seq<PatternPlan>, env: Env, w: Walk)
    requires plans != [] && Joined(plans) && |w| == |plans| - 1
    ensures var plan, b := plans[|plans| - 1], BindWalk(base, plans[..|plans| - 1], w);
      RowsOver(g, plan, env, b, Anchors(plan, env, b))
      == BindWalks(base, plans, Longer(w, HopsFrom(g, plan, env, NextAnchors(env, w))))
  {
    var plan, b := plans[|plans| - 1], BindWalk(base, plans[..|plans| - 1], w);
    JoinVariable(base, plans, w, env);
    RowsAreHops(g, plan, env, b, NextAnchors(env, w));
    LongerBinds(base, plans, w, HopsFrom(g, plan, env, NextAnchors(env, w)));
  }

  lemma LastRows(g: GraphView, plan: PatternPlan, env: Env, input: seq<Binding>, b: Binding)
    ensures AllRows(g, plan, env, input + [b])
         == AllRows(g, plan, env, input) + RowsOver(g, plan, env, b, Anchors(plan, env, b))
  {
    assert (input + [b])[..|input|] == input;
  }

  lemma ExtendLast(g: GraphView, plan: PatternPlan, env: Env, ws: seq<Walk>, w: Walk)
    ensures ExtendAll(g, plan, env, ws + [w])
         == ExtendAll(g, plan, env, ws) + Longer(w, HopsFrom(g, plan, env, NextAnchors(env, w)))
  {
    assert (ws + [w])[..|ws|] == ws;
  }

  ghost predicate InStep(g: GraphView, base: Binding, plans: seq<PatternPlan>, env: Env, ws: seq<Walk>)
    requires plans != [] && AllOfLength(ws, |plans| - 1)
  {
    var init, plan := plans[..|plans| - 1], plans[|plans| - 1];
    && AllOfLength(ExtendAll(g, plan, env, ws), |plans|)
    && AllRows(g, plan, env, BindWalks(base, init, ws)) == BindWalks(base, plans, ExtendAll(g, plan, env, ws))
  }

  lemma StaysInStep(g: GraphView, base: Binding, plans: seq<PatternPlan>, env: Env, ws: seq<Walk>, w: Walk)
    requires plans != [] && Joined(plans) && AllOfLength(ws, |plans| - 1) && |w| == |plans| - 1
    requires InStep(g, base, plans, env, ws)
    ensures AllOfLength(ws + [w], |plans| - 1) && InStep(g, base, plans, env, ws + [w])
  {
    var init, plan := plans[..|plans| - 1], plans[|plans| - 1];
    var was, more := ExtendAll(g, plan, env, ws), Longer(w, HopsFrom(g, plan, env, NextAnchors(env, w)));
    BindWalksSnoc(base, init, ws, w);
    LastRows(g, plan, env, BindWalks(base, init, ws), BindWalk(base, init, w));
    OneWalk(g, base, plans, env, w);
    ExtendLast(g, plan, env, ws, w);
    BindWalksAppend(base, plans, was, more);
  }

  // Extending bindings is extending walks.
  lemma {:induction false} ExtendBinds(g: GraphView, base: Binding, plans: seq<PatternPlan>, env: Env, ws: seq<Walk>)
    requires plans != [] && Joined(plans) && AllOfLength(ws, |plans| - 1)
    ensures InStep(g, base, plans, env, ws)
    decreases |ws|
  {
    if ws != [] {
      var ws', w := ws[..|ws| - 1], ws[|ws| - 1];
      assert ws == ws' + [w];
      ExtendBinds(g, base, plans, env, ws');
      StaysInStep(g, base, plans, env, ws', w);
    }
  }

  // Evaluation's rows are the bindings of the enumerated walks, in order.
  lemma {:induction false} RowsAreWalks(g: GraphView, base: Binding, plans: seq<PatternPlan>, envs: seq<Env>)
    requires Joined(plans) && |envs| == |plans|
    ensures AllOfLength(Walks(g, plans, envs), |plans|)
    ensures RowsAfter(g, plans, envs, [base]) == BindWalks(base, plans, Walks(g, plans, envs))
    decreases |plans|
  {
    WalkLength(g, plans, envs);
    if plans != [] {
      var n := |plans| - 1;
      forall i | 0 < i < n ensures JoinedTo(plans[..n][i - 1], plans[..n][i]) {
        assert JoinedTo(plans[i - 1], plans[i]);
      }
      RowsAreWalks(g, base, plans[..n], envs[..n]);
      ExtendBinds(g, base, plans, envs[n], Walks(g, plans[..n], envs[..n]));
    }
  }

  // ---- a join that its relationship overwrites ----

  // A row some hop of the plan has made.
  ghost predicate MadeBy(plan: PatternPlan, row: Binding) {
    exists b, h :: row == BindHop(b, plan, h)
  }

  lemma {:induction false} RowsAreMade(g: GraphView, plan: PatternPlan, env: Env, input: seq<Binding>, row: Binding)
    requires plan.cardinality.SingleHop? && row in AllRows(g, plan, env, input)
    ensures MadeBy(plan, row)
    decreases |input|
  {
    var init, base := input[..|input| - 1], input[|input| - 1];
    var anchors := Anchors(plan, env, base);
    if row in AllRows(g, plan, env, init) {
      RowsAreMade(g, plan, env, init, row);
    } else {
      var hs := HopsFrom(g, plan, env, anchors);
      RowsAreHops(g, plan, env, base, anchors);
      var i :| 0 <= i < |hs| && HopRows(plan, base, hs)[i] == row;
      assert row == BindHop(base, plan, hs[i]);
    }
  }

  lemma {:induction false} NothingToStartFrom(g: GraphView, plan: PatternPlan, env: Env, input: seq<Binding>)
    requires forall i | 0 <= i < |input| :: Anchors(plan, env, input[i]) == []
    ensures AllRows(g, plan, env, input) == []
    decreases |input|
  {
    if input != [] {
      NothingToStartFrom(g, plan, env, input[..|input| - 1]);
    }
  }

  // The step joins on a variable that names an edge.
  predicate Overwritten(was: PatternPlan, next: PatternPlan) {
    was.cardinality.SingleHop? && was.pathVar.None? && was.relVar.Some? && next.anchorBoundVar == was.relVar
  }

  lemma EdgeIsNoAnchor(g: GraphView, was: PatternPlan, next: PatternPlan, wasEnv: Env, env: Env, input: seq<Binding>)
    requires Overwritten(was, next)
    ensures AllRows(g, next, env, AllRows(g, was, wasEnv, input)) == []
  {
    var rows := AllRows(g, was, wasEnv, input);
    forall i | 0 <= i < |rows| ensures Anchors(next, env, rows[i]) == [] {
      RowsAreMade(g, was, wasEnv, input, rows[i]);
      var b, h :| rows[i] == BindHop(b, was, h);
    }
    NothingToStartFrom(g, next, env, rows);
  }

  lemma {:induction false} BrokenAt(g: GraphView, plans: seq<PatternPlan>, envs: seq<Env>, i: nat, base: Binding)
    requires |envs| == |plans| && 0 < i < |plans| && Overwritten(plans[i - 1], plans[i])
    ensures RowsAfter(g, plans, envs, [base]) == []
    decreases |plans|
  {
    var n := |plans| - 1;
    var init, initEnvs := plans[..n], envs[..n];
    if i < n {
      BrokenAt(g, init, initEnvs, i, base);
    } else {
      EdgeIsNoAnchor(g, plans[n - 1], plans[n], envs[n - 1], envs[n],
                     RowsAfter(g, init[..n - 1], initEnvs[..n - 1], [base]));
    }
  }

  // ---- which walks these are ----

  // Each hop is one of its step's, from where the walk has got to.
  predicate Takes(g: GraphView, plans: seq<PatternPlan>, envs: seq<Env>, w: Walk, j: nat)
    requires |w| <= |plans| == |envs| && j < |w|
  {
    && IsHop(g, plans[j], envs[j], w[j])
    && if j == 0 then w[0].anchor in envs[0].anchors else w[j].anchor == w[j - 1].peer
  }

  predicate TakesAll(g: GraphView, plans: seq<PatternPlan>, envs: seq<Env>, w: Walk)
    requires |w| <= |plans| == |envs|
  {
    forall j | 0 <= j < |w| :: Takes(g, plans, envs, w, j)
  }

  lemma {:induction false} ExtendMeans(g: GraphView, plan: PatternPlan, env: Env, ws: seq<Walk>, w: Walk)
    ensures w in ExtendAll(g, plan, env, ws) <==>
      && w != [] && w[..|w| - 1] in ws
      && w[|w| - 1] in HopsFrom(g, plan, env, NextAnchors(env, w[..|w| - 1]))
    decreases |ws|
  {
    if ws != [] {
      var init, v := ws[..|ws| - 1], ws[|ws| - 1];
      assert ws == init + [v];
      ExtendMeans(g, plan, env, init, w);
      LongerMeans(v, HopsFrom(g, plan, env, NextAnchors(env, v)), w);
    }
  }

  lemma LongerMeans(v: Walk, hs: seq<Hop>, w: Walk)
    ensures w in Longer(v, hs) <==> w != [] && w[..|w| - 1] == v && w[|w| - 1] in hs
  {
    if w in Longer(v, hs) {
      var i :| 0 <= i < |hs| && w == v + [hs[i]];
      assert w[..|w| - 1] == v;
    }
    if w != [] && w[..|w| - 1] == v && w[|w| - 1] in hs {
      var i :| 0 <= i < |hs| && hs[i] == w[|w| - 1];
      assert Longer(v, hs)[i] == w;
    }
  }

  lemma TakesAllLast(g: GraphView, plans: seq<PatternPlan>, envs: seq<Env>, w: Walk)
    requires 0 < |w| == |plans| == |envs|
    ensures var n := |w| - 1;
      TakesAll(g, plans, envs, w) <==> TakesAll(g, plans[..n], envs[..n], w[..n]) && Takes(g, plans, envs, w, n)
  {
    var n := |w| - 1;
    assert forall j | 0 <= j < n :: Takes(g, plans[..n], envs[..n], w[..n], j) == Takes(g, plans, envs, w, j);
  }

  lemma LastStep(g: GraphView, plans: seq<PatternPlan>, envs: seq<Env>, w: Walk)
    requires |envs| == |plans| && plans != []
    ensures var n := |plans| - 1;
      w in Walks(g, plans, envs) <==>
        && w != [] && w[..|w| - 1] in Walks(g, plans[..n], envs[..n])
        && w[|w| - 1].anchor in NextAnchors(envs[n], w[..|w| - 1]) && IsHop(g, plans[n], envs[n], w[|w| - 1])
  {
    var n := |plans| - 1;
    ExtendMeans(g, plans[n], envs[n], Walks(g, plans[..n], envs[..n]), w);
    if w != [] {
      HopsFromMean(g, plans[n], envs[n], NextAnchors(envs[n], w[..|w| - 1]), w[|w| - 1]);
    }
  }

  lemma LastTaken(g: GraphView, plans: seq<PatternPlan>, envs: seq<Env>, w: Walk)
    requires 0 < |w| == |plans| == |envs|
    ensures var n := |w| - 1;
      Takes(g, plans, envs, w, n)
      <==> w[n].anchor in NextAnchors(envs[n], w[..n]) && IsHop(g, plans[n], envs[n], w[n])
  {
    var n := |w| - 1;
    if n > 0 {
      assert w[..n][n - 1] == w[n - 1];
    }
  }

  // The walks of some steps are exactly those that take one hop of each, end to end.
  lemma {:induction false} WalksMean(g: GraphView, plans: seq<PatternPlan>, envs: seq<Env>, w: Walk)
    requires |envs| == |plans|
    ensures w in Walks(g, plans, envs) <==> |w| == |plans| && TakesAll(g, plans, envs, w)
    decreases |plans|
  {
    if plans != [] {
      var n := |plans| - 1;
      LastStep(g, plans, envs, w);
      if w != [] {
        WalksMean(g, plans[..n], envs[..n], w[..|w| - 1]);
      }
      if |w| == |plans| {
        TakesAllLast(g, plans, envs, w);
        LastTaken(g, plans, envs, w);
      }
    }
  }

  // ---- each once ----

  predicate WalksOnce(ws: seq<Walk>) {
    forall i, j | 0 <= i < j < |ws| :: ws[i] != ws[j]
  }

  lemma OnceOfTwo(s: seq<Walk>, t: seq<Walk>)
    requires WalksOnce(s) && WalksOnce(t) && forall w | w in s :: w !in t
    ensures WalksOnce(s + t)
  {
    forall i, j | 0 <= i < j < |s + t| ensures (s + t)[i] != (s + t)[j] {
      if i < |s| <= j {
        assert s[i] in s && t[j - |s|] in t;
      }
    }
  }

  lemma LongerOnce(w: Walk, hs: seq<Hop>)
    requires Once(hs)
    ensures WalksOnce(Longer(w, hs))
  {
    var ls := Longer(w, hs);
    forall i, j | 0 <= i < j < |ls| ensures ls[i] != ls[j] {
      assert ls[i][|w|] == hs[i] && ls[j][|w|] == hs[j];
    }
  }

  predicate NoRepeats(anchors: seq<NodeId>) {
    forall i, j | 0 <= i < j < |anchors| :: anchors[i] != anchors[j]
  }

  lemma {:induction false} ExtendOnce(g: GraphView, plan: PatternPlan, env: Env, ws: seq<Walk>)
    requires WalksOnce(ws) && NoRepeats(env.anchors)
    ensures WalksOnce(ExtendAll(g, plan, env, ws))
    decreases |ws|
  {
    if ws != [] {
      var init, v := ws[..|ws| - 1], ws[|ws| - 1];
      var hs := HopsFrom(g, plan, env, NextAnchors(env, v));
      ExtendOnce(g, plan, env, init);
      HopsFromOnce(g, plan, env, NextAnchors(env, v));
      LongerOnce(v, hs);
      forall w | w in ExtendAll(g, plan, env, init) ensures w !in Longer(v, hs) {
        ExtendMeans(g, plan, env, init, w);
        LongerMeans(v, hs, w);
      }
      OnceOfTwo(ExtendAll(g, plan, env, init), Longer(v, hs));
    }
  }

  lemma {:induction false} EachWalkOnce(g: GraphView, plans: seq<PatternPlan>, envs: seq<Env>)
    requires |envs| == |plans| && forall i | 0 <= i < |envs| :: NoRepeats(envs[i].anchors)
    ensures WalksOnce(Walks(g, plans, envs))
    decreases |plans|
  {
    if plans != [] {
      var n := |plans| - 1;
      EachWalkOnce(g, plans[..n], envs[..n]);
      ExtendOnce(g, plans[n], envs[n], Walks(g, plans[..n], envs[..n]));
    }
  }
}
