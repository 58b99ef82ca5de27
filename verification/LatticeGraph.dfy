/** Word lattices as topologically ordered graphs, their paths, and what the
    reverse Viterbi table means. */
module LatticeGraph {
  import opened Distinctness

  datatype Arc = Arc(start: nat, end: nat, word: int, weight: real)

  datatype Graph = Graph(finalNode: nat, arcs: seq<Arc>)

  /** Best outgoing arc of a node (-1 at the final node) and the score from there on. */
  datatype ArcScore = ArcScore(arc: int, score: real)

  ghost predicate Sorted(arcs: seq<Arc>)
  {
    forall i, j :: 0 <= i < j < |arcs| ==> arcs[i].start <= arcs[j].start
  }

  ghost predicate HasArc(g: Graph, n: nat)
  {
    exists i :: 0 <= i < |g.arcs| && g.arcs[i].start == n
  }

  ghost predicate Forwards(g: Graph)
  {
    forall i :: 0 <= i < |g.arcs| ==> g.arcs[i].start < g.arcs[i].end <= g.finalNode
  }

  /** What the searches need of a loaded lattice: arcs go forward, they are sorted by
      start node, and no node before the final one is a dead end. */
  ghost predicate WellFormed(g: Graph)
  {
    && g.finalNode > 0
    && Forwards(g)
    && Sorted(g.arcs)
    && (forall n: nat :: n < g.finalNode ==> HasArc(g, n))
  }

  /** lo .. hi are the indices of the arcs that leave node n. */
  ghost predicate ArcsOf(g: Graph, n: nat, lo: nat, hi: nat)
  {
    && lo <= hi <= |g.arcs|
    && forall i :: 0 <= i < |g.arcs| ==> (lo <= i < hi <==> g.arcs[i].start == n)
  }

  /** nodeArcs[n] .. nodeArcs[n + 1] are the arcs of node n. */
  ghost predicate Indexed(g: Graph, nodeArcs: seq<nat>)
  {
    && |nodeArcs| == g.finalNode + 2
    && forall n :: 0 <= n <= g.finalNode ==> ArcsOf(g, n, nodeArcs[n], nodeArcs[n + 1])
  }

  // ----- paths -----

  ghost predicate InRange(g: Graph, p: seq<nat>)
  {
    forall k :: 0 <= k < |p| ==> p[k] < |g.arcs|
  }

  /** The arcs p lead from node a to node b. */
  ghost predicate IsPath(g: Graph, p: seq<nat>, a: nat, b: nat): (r: bool)
    ensures r ==> InRange(g, p)
  {
    if p == [] then a == b
    else p[0] < |g.arcs| && g.arcs[p[0]].start == a && IsPath(g, p[1..], g.arcs[p[0]].end, b)
  }

  ghost function Weight(g: Graph, p: seq<nat>): real
    requires InRange(g, p)
  {
    if p == [] then 0.0 else g.arcs[p[0]].weight + Weight(g, p[1..])
  }

  lemma {:induction false} WeightConcat(g: Graph, p: seq<nat>, q: seq<nat>)
    requires InRange(g, p) && InRange(g, q)
    ensures Weight(g, p + q) == Weight(g, p) + Weight(g, q)
  {
    if p == [] {
      assert p + q == q;
    } else {
      WeightConcat(g, p[1..], q);
      assert (p + q)[1..] == p[1..] + q;
    }
  }

  lemma {:induction false} PathConcat(g: Graph, p: seq<nat>, q: seq<nat>, a: nat, b: nat, c: nat)
    requires IsPath(g, p, a, b) && IsPath(g, q, b, c)
    ensures IsPath(g, p + q, a, c)
  {
    if p == [] {
      assert p + q == q;
    } else {
      PathConcat(g, p[1..], q, g.arcs[p[0]].end, b, c);
      assert (p + q)[1..] == p[1..] + q;
    }
  }

  lemma PathSnoc(g: Graph, p: seq<nat>, a: nat, i: nat)
    requires i < |g.arcs| && IsPath(g, p, a, g.arcs[i].start)
    ensures IsPath(g, p + [i], a, g.arcs[i].end)
    ensures Weight(g, p + [i]) == Weight(g, p) + g.arcs[i].weight
  {
    var one := [i];
    assert one[1..] == [] && IsPath(g, one, g.arcs[i].start, g.arcs[i].end);
    PathConcat(g, p, one, a, g.arcs[i].start, g.arcs[i].end);
    WeightConcat(g, p, one);
  }

  /** Cutting a path in two after its first k arcs. */
  lemma {:induction false} PathSplit(g: Graph, p: seq<nat>, k: nat, a: nat, b: nat) returns (mid: nat)
    requires IsPath(g, p, a, b) && k <= |p|
    ensures IsPath(g, p[..k], a, mid) && IsPath(g, p[k..], mid, b)
    ensures k > 0 ==> mid == g.arcs[p[k - 1]].end
    ensures k < |p| ==> mid == g.arcs[p[k]].start
  {
    if k == 0 {
      mid := a;
      assert p[0..] == p;
    } else {
      mid := PathSplit(g, p[1..], k - 1, g.arcs[p[0]].end, b);
      assert p[..k][1..] == p[1..][..k - 1] && p[k..] == p[1..][k - 1..];
    }
  }

  /** Taking the last arc off. */
  lemma PathInit(g: Graph, p: seq<nat>, a: nat, b: nat)
    requires IsPath(g, p, a, b) && p != []
    ensures p[|p| - 1] < |g.arcs|
    ensures IsPath(g, p[..|p| - 1], a, g.arcs[p[|p| - 1]].start) && g.arcs[p[|p| - 1]].end == b
  {
    var mid := PathSplit(g, p, |p| - 1, a, b);
    assert p[|p| - 1..][1..] == [];
  }

  lemma {:induction false} PathForward(g: Graph, p: seq<nat>, a: nat, b: nat)
    requires Forwards(g) && IsPath(g, p, a, b)
    ensures a + |p| <= b
  {
    if p != [] {
      PathForward(g, p[1..], g.arcs[p[0]].end, b);
    }
  }

  // ----- the Viterbi table -----

  /** The local equations that one backward sweep establishes. */
  ghost predicate Bellman(g: Graph, best: seq<ArcScore>)
  {
    && |best| == g.finalNode + 1
    && best[g.finalNode].score == 0.0
    && Forwards(g)
    && (forall n {:trigger IsBestArc(g, best, n, best[n].arc)} ::
          0 <= n < g.finalNode ==> IsBestArc(g, best, n, best[n].arc))
    && (forall i :: 0 <= i < |g.arcs| ==>
          best[g.arcs[i].start].score <= g.arcs[i].weight + best[g.arcs[i].end].score)
  }

  ghost predicate IsBestArc(g: Graph, best: seq<ArcScore>, n: nat, i: int)
    requires n < |best| == g.finalNode + 1
    requires forall k :: 0 <= k < |g.arcs| ==> g.arcs[k].end <= g.finalNode
  {
    && 0 <= i < |g.arcs|
    && g.arcs[i].start == n
    && best[n].score == g.arcs[i].weight + best[g.arcs[i].end].score
  }

  ghost function BestPath(g: Graph, best: seq<ArcScore>, n: nat): (p: seq<nat>)
    requires Bellman(g, best) && n <= g.finalNode
    ensures IsPath(g, p, n, g.finalNode)
    decreases g.finalNode - n
  {
    if n == g.finalNode then []
    else
      assert IsBestArc(g, best, n, best[n].arc);
      var p := [best[n].arc] + BestPath(g, best, g.arcs[best[n].arc].end);
      assert p[1..] == BestPath(g, best, g.arcs[best[n].arc].end);
      p
  }

  lemma {:induction false} BestPathWeight(g: Graph, best: seq<ArcScore>, n: nat)
    requires Bellman(g, best) && n <= g.finalNode
    ensures Weight(g, BestPath(g, best, n)) == best[n].score
    decreases g.finalNode - n
  {
    if n < g.finalNode {
      assert IsBestArc(g, best, n, best[n].arc);
      var i := best[n].arc;
      BestPathWeight(g, best, g.arcs[i].end);
      assert BestPath(g, best, n)[1..] == BestPath(g, best, g.arcs[i].end);
    }
  }

  lemma {:induction false} ScoreIsLowerBound(g: Graph, best: seq<ArcScore>, n: nat, p: seq<nat>)
    requires Bellman(g, best) && n <= g.finalNode && IsPath(g, p, n, g.finalNode)
    ensures best[n].score <= Weight(g, p)
    decreases |p|
  {
    if p != [] {
      ScoreIsLowerBound(g, best, g.arcs[p[0]].end, p[1..]);
    }
  }

  /** The table entry of every node is the least weight of a path from there to the
      final node, and following the recorded arcs takes such a path. */
  lemma ViterbiTableIsExact(g: Graph, best: seq<ArcScore>, n: nat)
    requires Bellman(g, best) && n <= g.finalNode
    ensures IsPath(g, BestPath(g, best, n), n, g.finalNode)
    ensures Weight(g, BestPath(g, best, n)) == best[n].score
    ensures forall p :: IsPath(g, p, n, g.finalNode) ==> best[n].score <= Weight(g, p)
  {
    BestPathWeight(g, best, n);
    forall p | IsPath(g, p, n, g.finalNode)
      ensures best[n].score <= Weight(g, p)
    {
      ScoreIsLowerBound(g, best, n, p);
    }
  }

  /** A path from the start to the final node exists. */
  lemma {:induction false} FinalReachable(g: Graph, n: nat) returns (p: seq<nat>)
    requires WellFormed(g) && n <= g.finalNode
    ensures IsPath(g, p, n, g.finalNode)
    decreases g.finalNode - n
  {
    if n == g.finalNode {
      p := [];
    } else {
      assert HasArc(g, n);
      var i :| 0 <= i < |g.arcs| && g.arcs[i].start == n;
      var rest := FinalReachable(g, g.arcs[i].end);
      p := [i] + rest;
      assert p[1..] == rest;
    }
  }

  // ----- the list of the n lightest paths -----

  ghost predicate Incomparable<T>(p: seq<T>, q: seq<T>)
  {
    !(p <= q) && !(q <= p)
  }

  /** scores lists, in order, the weights of the limit lightest complete paths (all of
      them when there are fewer): distinct paths, and no other path is lighter. */
  ghost predicate IsNBest(g: Graph, limit: nat, scores: seq<real>, paths: seq<seq<nat>>)
  {
    && |scores| == |paths| <= limit
    && (forall d :: 0 <= d < |paths| ==>
          IsPath(g, paths[d], 0, g.finalNode) && scores[d] == Weight(g, paths[d]))
    && Distinct(paths)
    && (forall c, d :: 0 <= c < d < |scores| ==> scores[c] <= scores[d])
    && (forall p :: IsPath(g, p, 0, g.finalNode) && p !in paths ==>
          |scores| == limit && forall d :: 0 <= d < |scores| ==> scores[d] <= Weight(g, p))
  }

  /** scores are the weights, in order, of the limit lightest complete paths. */
  ghost predicate IsNBestScores(g: Graph, limit: nat, scores: seq<real>)
  {
    exists paths :: IsNBest(g, limit, scores, paths)
  }

  lemma NBestScoreAtMost(g: Graph, limit: nat, s: seq<real>, p: seq<seq<nat>>, t: seq<real>, q: seq<seq<nat>>, d: nat)
    requires IsNBest(g, limit, s, p) && IsNBest(g, limit, t, q) && d < |s| && d < |t|
    ensures t[d] <= s[d]
  {
    var c := Pigeonhole(p[..d + 1], q[..d]);
    assert p[..d + 1][c] == p[c];
    assert forall e :: 0 <= e < d ==> q[e] in q[..d];
    if p[c] in q {
      var e :| 0 <= e < |q| && q[e] == p[c];
      assert d <= e;
    }
  }

  lemma NBestNotLonger(g: Graph, limit: nat, s: seq<real>, p: seq<seq<nat>>, t: seq<real>, q: seq<seq<nat>>)
    requires IsNBest(g, limit, s, p) && IsNBest(g, limit, t, q)
    ensures |s| <= |t|
  {
    if |s| > |t| {
      var c := Pigeonhole(p, q);
    }
  }

  /** The n-best scores are determined by the graph, whatever order ties are popped in. */
  lemma NBestScoresUnique(g: Graph, limit: nat, s: seq<real>, t: seq<real>)
    requires IsNBestScores(g, limit, s) && IsNBestScores(g, limit, t)
    ensures s == t
  {
    var p :| IsNBest(g, limit, s, p);
    var q :| IsNBest(g, limit, t, q);
    hide IsNBest;
    NBestNotLonger(g, limit, s, p, t, q);
    NBestNotLonger(g, limit, t, q, s, p);
    forall d | 0 <= d < |s|
      ensures s[d] == t[d]
    {
      NBestScoreAtMost(g, limit, s, p, t, q, d);
      NBestScoreAtMost(g, limit, t, q, s, p, d);
    }
  }
}
