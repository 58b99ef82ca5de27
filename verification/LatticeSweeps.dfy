/** Step lemmas for the loops that walk the arcs of a lattice: the index of first arcs, the
    backward Viterbi sweep, and the forward and backward sums. */
module LatticeSweeps {
  import opened LatticeGraph
  import opened LatticeFlow

  // ----- index of first arcs -----

  /** The index entry of arc i's start node is an arc of that node, not after i. */
  ghost predicate FirstBefore(g: Graph, first: seq<nat>, i: nat)
    requires i < |g.arcs|
  {
    var n := g.arcs[i].start;
    n < |first| && first[n] <= i && g.arcs[first[n]].start == n
  }

  ghost predicate FirstArcs(g: Graph, first: seq<nat>)
  {
    && |first| == g.finalNode + 2
    && first[g.finalNode] == first[g.finalNode + 1] == |g.arcs|
    && (forall i :: 0 <= i < |g.arcs| ==> g.arcs[i].start < g.finalNode)
    && (forall i :: 0 <= i < |g.arcs| ==> FirstBefore(g, first, i))
  }

  lemma FirstOfNode(g: Graph, first: seq<nat>, n: nat)
    requires FirstArcs(g, first) && n < g.finalNode && HasArc(g, n)
    ensures first[n] < |g.arcs| && g.arcs[first[n]].start == n
    ensures forall i :: 0 <= i < |g.arcs| && g.arcs[i].start == n ==> first[n] <= i
  {
    var i :| 0 <= i < |g.arcs| && g.arcs[i].start == n;
    assert FirstBefore(g, first, i);
    forall i | 0 <= i < |g.arcs| && g.arcs[i].start == n
      ensures first[n] <= i
    {
      assert FirstBefore(g, first, i);
    }
  }

  /** The index is complete when no node is a dead end. */
  lemma FirstArcsIndex(g: Graph, first: seq<nat>)
    requires FirstArcs(g, first) && Sorted(g.arcs)
    requires forall n: nat :: n < g.finalNode ==> HasArc(g, n)
    ensures Indexed(g, first)
  {
    forall n | 0 <= n <= g.finalNode
      ensures ArcsOf(g, n, first[n], first[n + 1])
    {
      if n < g.finalNode {
        FirstOfNode(g, first, n);
        if n + 1 < g.finalNode {
          FirstOfNode(g, first, n + 1);
        }
      }
    }
  }

  // ----- the backward Viterbi sweep -----

  /** Nodes from n on are settled as far as the arcs from k on go. */
  ghost predicate TableDone(g: Graph, best: seq<ArcScore>, n: nat, k: nat)
  {
    && Forwards(g) && |best| == g.finalNode + 1 && k <= |g.arcs|
    && best[g.finalNode].score == 0.0
    && (forall m {:trigger IsBestArc(g, best, m, best[m].arc)} ::
          n <= m < g.finalNode ==> IsBestArc(g, best, m, best[m].arc))
    && (forall j :: k <= j < |g.arcs| && n <= g.arcs[j].start ==>
          best[g.arcs[j].start].score <= g.arcs[j].weight + best[g.arcs[j].end].score)
  }

  /** (arc, score) is the best continuation of cur among the arcs from k on. */
  ghost predicate IsCurrent(g: Graph, best: seq<ArcScore>, cur: nat, arc: int, score: real, k: nat)
    requires Forwards(g) && |best| == g.finalNode + 1 && k <= |g.arcs|
  {
    && k <= arc < |g.arcs| && g.arcs[arc].start == cur
    && score == g.arcs[arc].weight + best[g.arcs[arc].end].score
    && forall j :: k <= j < |g.arcs| && g.arcs[j].start == cur ==>
         score <= g.arcs[j].weight + best[g.arcs[j].end].score
  }

  /** The arcs from k on start at cur or later, the others at cur or before. */
  ghost predicate Boundary(g: Graph, cur: nat, k: nat)
  {
    && cur <= g.finalNode && k <= |g.arcs|
    && (forall j :: k <= j < |g.arcs| ==> cur <= g.arcs[j].start)
    && (forall j :: 0 <= j < k ==> g.arcs[j].start <= cur)
  }

  /** Arcs from k on are done: nodes after cur are settled, (arc, score) is the best of cur. */
  ghost predicate Swept(g: Graph, best: seq<ArcScore>, cur: nat, arc: int, score: real, k: nat)
  {
    && Forwards(g) && |best| == g.finalNode + 1
    && Boundary(g, cur, k)
    && (cur == g.finalNode ==> score == 0.0 && k == |g.arcs|)
    && (cur < g.finalNode ==>
          TableDone(g, best, cur + 1, k) && IsCurrent(g, best, cur, arc, score, k))
  }

  lemma PreviousNode(g: Graph, cur: nat, i: nat)
    requires WellFormed(g) && i < |g.arcs| && Boundary(g, cur, i + 1) && g.arcs[i].start != cur
    ensures g.arcs[i].start + 1 == cur && Boundary(g, g.arcs[i].start, i)
  {
    assert HasArc(g, cur - 1);
  }

  /** Storing the entry of cur settles it. */
  lemma StoreSettles(g: Graph, best: seq<ArcScore>, cur: nat, arc: int, score: real, k: nat, best': seq<ArcScore>)
    requires Swept(g, best, cur, arc, score, k) && best' == best[cur := ArcScore(arc, score)]
    ensures TableDone(g, best', cur, k)
  {
    forall m | cur <= m < g.finalNode
      ensures IsBestArc(g, best', m, best'[m].arc)
    {
      if cur < m {
        assert IsBestArc(g, best, m, best[m].arc);
      }
    }
  }

  lemma SweepNewNode(g: Graph, best: seq<ArcScore>, cur: nat, arc: int, score: real, i: nat,
                     best': seq<ArcScore>)
    requires WellFormed(g) && i < |g.arcs| && Swept(g, best, cur, arc, score, i + 1)
    requires g.arcs[i].start != cur && best' == best[cur := ArcScore(arc, score)]
    ensures Swept(g, best', g.arcs[i].start, i, best'[g.arcs[i].end].score + g.arcs[i].weight, i)
  {
    PreviousNode(g, cur, i);
    StoreSettles(g, best, cur, arc, score, i + 1, best');
    assert IsCurrent(g, best', g.arcs[i].start, i, best'[g.arcs[i].end].score + g.arcs[i].weight, i);
  }

  lemma SweepSameNode(g: Graph, best: seq<ArcScore>, cur: nat, arc: int, score: real, i: nat)
    requires WellFormed(g) && i < |g.arcs| && Swept(g, best, cur, arc, score, i + 1)
    requires g.arcs[i].start == cur
    ensures var s := best[g.arcs[i].end].score + g.arcs[i].weight;
            if s < score then Swept(g, best, cur, i, s, i) else Swept(g, best, cur, arc, score, i)
  {
  }

  lemma SweepEnd(g: Graph, best: seq<ArcScore>, cur: nat, arc: int, score: real, best': seq<ArcScore>)
    requires WellFormed(g) && Swept(g, best, cur, arc, score, 0)
    requires best' == best[cur := ArcScore(arc, score)]
    ensures Bellman(g, best')
  {
    assert HasArc(g, 0);
    StoreSettles(g, best, cur, arc, score, 0, best');
  }

  // ----- the forward sums -----

  ghost predicate ForwardPart(g: Graph, prob: seq<real>, fwd: seq<real>, k: nat)
  {
    && Probs(g, prob) && |fwd| == g.finalNode + 1 && k <= |g.arcs|
    && fwd[0] == 1.0
    && forall n :: 0 < n <= g.finalNode ==> fwd[n] == Inflow(g, prob, fwd, n, k)
  }

  lemma {:induction false} InflowFrame(g: Graph, prob: seq<real>, fwd: seq<real>, fwd': seq<real>, n: nat, k: nat)
    requires Probs(g, prob) && |fwd| == |fwd'| == g.finalNode + 1 && k <= |g.arcs|
    requires forall j :: 0 <= j < k ==> fwd[g.arcs[j].start] == fwd'[g.arcs[j].start]
    ensures Inflow(g, prob, fwd, n, k) == Inflow(g, prob, fwd', n, k)
  {
    if k > 0 {
      InflowFrame(g, prob, fwd, fwd', n, k - 1);
    }
  }

  lemma ForwardStart(g: Graph, prob: seq<real>, fwd: seq<real>)
    requires Probs(g, prob) && |fwd| == g.finalNode + 1 && fwd[0] == 1.0
    requires forall n :: 0 < n <= g.finalNode ==> fwd[n] == 0.0
    ensures ForwardPart(g, prob, fwd, 0)
  {
  }

  lemma ForwardStep(g: Graph, prob: seq<real>, fwd: seq<real>, k: nat, v: real, fwd': seq<real>)
    requires ForwardPart(g, prob, fwd, k) && k < |g.arcs| && Sorted(g.arcs)
    requires v == fwd[g.arcs[k].end] + fwd[g.arcs[k].start] * prob[k] && fwd' == fwd[g.arcs[k].end := v]
    ensures ForwardPart(g, prob, fwd', k + 1)
  {
    forall n | 0 < n <= g.finalNode
      ensures fwd'[n] == Inflow(g, prob, fwd', n, k + 1)
    {
      InflowFrame(g, prob, fwd, fwd', n, k);
      assert fwd'[g.arcs[k].start] == fwd[g.arcs[k].start];
    }
  }

  // ----- the backward sums -----

  /** Arcs from k on are done: nodes after cur are final, total is what cur has so far. */
  ghost predicate BackwardPart(g: Graph, prob: seq<real>, bwd: seq<real>, cur: nat, total: real, k: nat)
  {
    && Probs(g, prob) && |bwd| == g.finalNode + 1
    && Boundary(g, cur, k)
    && (cur == g.finalNode ==> total == 1.0 && k == |g.arcs|)
    && (cur < g.finalNode ==> bwd[g.finalNode] == 1.0 && total == Outflow(g, prob, bwd, cur, k))
    && (forall n :: cur < n < g.finalNode ==> bwd[n] == Outflow(g, prob, bwd, n, k))
  }

  lemma {:induction false} OutflowFrame(g: Graph, prob: seq<real>, bwd: seq<real>, bwd': seq<real>, n: nat, k: nat)
    requires Probs(g, prob) && |bwd| == |bwd'| == g.finalNode + 1 && k <= |g.arcs|
    requires forall j :: k <= j < |g.arcs| && g.arcs[j].start == n ==> bwd[g.arcs[j].end] == bwd'[g.arcs[j].end]
    ensures Outflow(g, prob, bwd, n, k) == Outflow(g, prob, bwd', n, k)
    decreases |g.arcs| - k
  {
    if k < |g.arcs| {
      OutflowFrame(g, prob, bwd, bwd', n, k + 1);
    }
  }

  lemma {:induction false} NoOutflow(g: Graph, prob: seq<real>, bwd: seq<real>, n: nat, k: nat)
    requires Probs(g, prob) && |bwd| == g.finalNode + 1 && k <= |g.arcs|
    requires forall j :: k <= j < |g.arcs| ==> g.arcs[j].start != n
    ensures Outflow(g, prob, bwd, n, k) == 0.0
    decreases |g.arcs| - k
  {
    if k < |g.arcs| {
      NoOutflow(g, prob, bwd, n, k + 1);
    }
  }

  /** Storing the total of cur settles it. */
  lemma StoreTotal(g: Graph, prob: seq<real>, bwd: seq<real>, cur: nat, total: real, k: nat, bwd': seq<real>)
    requires BackwardPart(g, prob, bwd, cur, total, k) && bwd' == bwd[cur := total]
    ensures bwd'[g.finalNode] == 1.0
    ensures forall n :: cur <= n < g.finalNode ==> bwd'[n] == Outflow(g, prob, bwd', n, k)
  {
    forall n | cur <= n < g.finalNode
      ensures bwd'[n] == Outflow(g, prob, bwd', n, k)
    {
      OutflowFrame(g, prob, bwd, bwd', n, k);
    }
  }

  lemma BackwardNewNode(g: Graph, prob: seq<real>, bwd: seq<real>, cur: nat, total: real, i: nat, bwd': seq<real>)
    requires WellFormed(g) && i < |g.arcs| && BackwardPart(g, prob, bwd, cur, total, i + 1)
    requires g.arcs[i].start != cur && bwd' == bwd[cur := total]
    ensures BackwardPart(g, prob, bwd', g.arcs[i].start, bwd'[g.arcs[i].end] * prob[i], i)
  {
    PreviousNode(g, cur, i);
    StoreTotal(g, prob, bwd, cur, total, i + 1, bwd');
    NoOutflow(g, prob, bwd', g.arcs[i].start, i + 1);
    forall n | g.arcs[i].start < n < g.finalNode
      ensures bwd'[n] == Outflow(g, prob, bwd', n, i)
    {
    }
  }

  lemma BackwardSameNode(g: Graph, prob: seq<real>, bwd: seq<real>, cur: nat, total: real, i: nat)
    requires WellFormed(g) && i < |g.arcs| && BackwardPart(g, prob, bwd, cur, total, i + 1)
    requires g.arcs[i].start == cur
    ensures BackwardPart(g, prob, bwd, cur, total + bwd[g.arcs[i].end] * prob[i], i)
  {
    forall n | cur < n < g.finalNode
      ensures bwd[n] == Outflow(g, prob, bwd, n, i)
    {
    }
  }

  lemma BackwardEnd(g: Graph, prob: seq<real>, bwd: seq<real>, cur: nat, total: real, bwd': seq<real>)
    requires WellFormed(g) && BackwardPart(g, prob, bwd, cur, total, 0) && bwd' == bwd[cur := total]
    ensures IsBackward(g, prob, bwd')
  {
    assert HasArc(g, 0);
    StoreTotal(g, prob, bwd, cur, total, 0, bwd');
  }
}
