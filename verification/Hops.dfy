// The hops a single-hop plan enumerates: each admitted edge from each anchor to an admissible peer,
// once (crates/cgx-cql/src/eval.rs, expand_single_hop).
module Hops {
  import opened Graph
  import opened CodeGraph
  import opened Lowering
  import opened BindingStream

  // All hops from a list of anchors, in order.
  function HopsFrom(g: GraphView, plan: PatternPlan, env: Env, anchors: seq<NodeId>): seq<Hop> {
    if anchors == [] then []
    else HopsFrom(g, plan, env, anchors[..|anchors| - 1]) + HopsAt(g, plan, env, anchors[|anchors| - 1])
  }

  lemma {:induction false} RowsAreHops(g: GraphView, plan: PatternPlan, env: Env, base: Binding, anchors: seq<NodeId>)
    requires plan.cardinality.SingleHop?
    ensures RowsOver(g, plan, env, base, anchors) == HopRows(plan, base, HopsFrom(g, plan, env, anchors))
    decreases |anchors|
  {
    if anchors != [] {
      var init, last := anchors[..|anchors| - 1], anchors[|anchors| - 1];
      var was, more := HopsFrom(g, plan, env, init), HopsAt(g, plan, env, last);
      RowsAreHops(g, plan, env, base, init);
      HopRowsAppend(plan, base, was, more);
    }
  }

  lemma HopRowsAppend(plan: PatternPlan, base: Binding, s: seq<Hop>, t: seq<Hop>)
    ensures HopRows(plan, base, s + t) == HopRows(plan, base, s) + HopRows(plan, base, t)
  {
  }

  // An admitted edge at `h.anchor`, in the plan's direction, to an admissible peer.
  predicate IsHop(g: GraphView, plan: PatternPlan, env: Env, h: Hop) {
    && h.edge < |g.edges|
    && Near(g.edges[h.edge], plan.direction) == h.anchor && Far(g.edges[h.edge], plan.direction) == h.peer
    && Admits(plan.filter, g.edges[h.edge]) && env.test(h.peer)
  }

  predicate Edges(g: GraphView, es: seq<EdgeId>) {
    forall i | 0 <= i < |es| :: es[i] < |g.edges|
  }

  predicate Ascending(es: seq<EdgeId>) {
    forall i, j | 0 <= i < j < |es| :: es[i] < es[j]
  }

  lemma {:induction false} HopsOverMean(g: GraphView, plan: PatternPlan, env: Env, anchor: NodeId, es: seq<EdgeId>,
                                        h: Hop)
    requires Edges(g, es)
    ensures h in HopsOver(g, plan, env, anchor, es) <==>
              && h.anchor == anchor && h.edge in es
              && h.peer == Far(g.edges[h.edge], plan.direction) && env.test(h.peer)
    decreases |es|
  {
    if es != [] {
      var init, e := es[..|es| - 1], es[|es| - 1];
      assert es == init + [e];
      HopsOverMean(g, plan, env, anchor, init, h);
    }
  }

  predicate Rising(hs: seq<Hop>) {
    forall i, j | 0 <= i < j < |hs| :: hs[i].edge < hs[j].edge
  }

  lemma {:induction false} HopsOverRise(g: GraphView, plan: PatternPlan, env: Env, anchor: NodeId, es: seq<EdgeId>)
    requires Edges(g, es) && Ascending(es)
    ensures Rising(HopsOver(g, plan, env, anchor, es))
    decreases |es|
  {
    if es != [] {
      var init, e := es[..|es| - 1], es[|es| - 1];
      HopsOverRise(g, plan, env, anchor, init);
      var was := HopsOver(g, plan, env, anchor, init);
      forall i | 0 <= i < |was| ensures was[i].edge < e {
        HopsOverMean(g, plan, env, anchor, init, was[i]);
        assert was[i].edge in init;
        assert forall k | 0 <= k < |init| :: init[k] == es[k] < e;
      }
    }
  }

  lemma HopsAtMean(g: GraphView, plan: PatternPlan, env: Env, anchor: NodeId, h: Hop)
    ensures h in HopsAt(g, plan, env, anchor) <==> h.anchor == anchor && IsHop(g, plan, env, h)
  {
    var es := Neighbors(g, anchor, plan.direction, plan.filter);
    HopsOverMean(g, plan, env, anchor, es, h);
    assert h.edge in es <==>
      h.edge < |g.edges| && Near(g.edges[h.edge], plan.direction) == anchor && Admits(plan.filter, g.edges[h.edge]);
  }

  // Exactly the hops there are.
  lemma {:induction false} HopsFromMean(g: GraphView, plan: PatternPlan, env: Env, anchors: seq<NodeId>, h: Hop)
    ensures h in HopsFrom(g, plan, env, anchors) <==> h.anchor in anchors && IsHop(g, plan, env, h)
    decreases |anchors|
  {
    if anchors != [] {
      var init, last := anchors[..|anchors| - 1], anchors[|anchors| - 1];
      assert anchors == init + [last];
      HopsFromMean(g, plan, env, init, h);
      HopsAtMean(g, plan, env, last, h);
    }
  }

  predicate Once(hs: seq<Hop>) {
    forall i, j | 0 <= i < j < |hs| :: hs[i] != hs[j]
  }

  // Each once, provided no anchor repeats.
  lemma {:induction false} HopsFromOnce(g: GraphView, plan: PatternPlan, env: Env, anchors: seq<NodeId>)
    requires forall i, j | 0 <= i < j < |anchors| :: anchors[i] != anchors[j]
    ensures Once(HopsFrom(g, plan, env, anchors))
    decreases |anchors|
  {
    if anchors != [] {
      var init, last := anchors[..|anchors| - 1], anchors[|anchors| - 1];
      HopsFromOnce(g, plan, env, init);
      HopsOverRise(g, plan, env, last, Neighbors(g, last, plan.direction, plan.filter));
      var was, more := HopsFrom(g, plan, env, init), HopsAt(g, plan, env, last);
      forall h | h in was ensures h !in more {
        HopsFromMean(g, plan, env, init, h);
        HopsAtMean(g, plan, env, last, h);
      }
      OnceAppend(was, more);
    }
  }

  lemma OnceAppend(s: seq<Hop>, t: seq<Hop>)
    requires Once(s) && Rising(t) && forall h | h in s :: h !in t
    ensures Once(s + t)
  {
    forall i, j | 0 <= i < j < |s + t| ensures (s + t)[i] != (s + t)[j] {
      if i < |s| <= j {
        assert s[i] in s && t[j - |s|] in t;
      }
    }
  }
}
