/** Forward and backward sums over a lattice in exact arithmetic: prob[i] stands for
    exp(-weight) of arc i, sums stand for logAdd, and 0 for minus infinity. */
module LatticeFlow {
  import opened Arithmetic
  import opened LatticeGraph
  import opened Distinctness

  ghost predicate Probs(g: Graph, prob: seq<real>)
  {
    && |prob| == |g.arcs|
    && g.finalNode > 0
    && Forwards(g)
  }

  // ----- the equations of the two sweeps -----

  /** Mass that the first k arcs bring into node n. */
  ghost function Inflow(g: Graph, prob: seq<real>, fwd: seq<real>, n: nat, k: nat): real
    requires Probs(g, prob) && |fwd| == g.finalNode + 1 && k <= |g.arcs|
  {
    if k == 0 then 0.0
    else
      Inflow(g, prob, fwd, n, k - 1)
      + (if g.arcs[k - 1].end == n then fwd[g.arcs[k - 1].start] * prob[k - 1] else 0.0)
  }

  /** Mass that the arcs from k on take out of node n. */
  ghost function Outflow(g: Graph, prob: seq<real>, bwd: seq<real>, n: nat, k: nat): real
    requires Probs(g, prob) && |bwd| == g.finalNode + 1 && k <= |g.arcs|
    decreases |g.arcs| - k
  {
    if k == |g.arcs| then 0.0
    else
      Outflow(g, prob, bwd, n, k + 1)
      + (if g.arcs[k].start == n then prob[k] * bwd[g.arcs[k].end] else 0.0)
  }

  /** Forward masses: 1 at node 0, elsewhere what flows in. */
  ghost predicate IsForward(g: Graph, prob: seq<real>, fwd: seq<real>)
  {
    && Probs(g, prob)
    && |fwd| == g.finalNode + 1
    && fwd[0] == 1.0
    && forall n :: 0 < n <= g.finalNode ==> fwd[n] == Inflow(g, prob, fwd, n, |g.arcs|)
  }

  /** Backward masses: 1 at the final node, elsewhere what flows out. */
  ghost predicate IsBackward(g: Graph, prob: seq<real>, bwd: seq<real>)
  {
    && Probs(g, prob)
    && |bwd| == g.finalNode + 1
    && bwd[g.finalNode] == 1.0
    && forall n :: 0 <= n < g.finalNode ==> bwd[n] == Outflow(g, prob, bwd, n, 0)
  }

  // ----- the sums as sums over paths -----

  ghost predicate InBounds(prob: seq<real>, p: seq<nat>)
  {
    forall k :: 0 <= k < |p| ==> p[k] < |prob|
  }

  ghost function Product(prob: seq<real>, p: seq<nat>): real
    requires InBounds(prob, p)
  {
    if p == [] then 1.0 else prob[p[0]] * Product(prob, p[1..])
  }

  ghost predicate AllInBounds(prob: seq<real>, ps: seq<seq<nat>>)
  {
    forall i :: 0 <= i < |ps| ==> InBounds(prob, ps[i])
  }

  ghost function ProductSum(prob: seq<real>, ps: seq<seq<nat>>): real
    requires AllInBounds(prob, ps)
  {
    if ps == [] then 0.0 else Product(prob, ps[0]) + ProductSum(prob, ps[1..])
  }

  /** Every path from n to the final node, once. */
  ghost function PathsFrom(g: Graph, n: nat): seq<seq<nat>>
    requires Forwards(g) && n <= g.finalNode
    decreases g.finalNode - n, |g.arcs| + 1
  {
    if n == g.finalNode then [[]] else PathsVia(g, n, 0)
  }

  /** Those that start with arc k or a later one. */
  ghost function PathsVia(g: Graph, n: nat, k: nat): seq<seq<nat>>
    requires Forwards(g) && n <= g.finalNode && k <= |g.arcs|
    decreases g.finalNode - n, |g.arcs| - k
  {
    if k == |g.arcs| then []
    else if g.arcs[k].start == n then Prefixed(k, PathsFrom(g, g.arcs[k].end)) + PathsVia(g, n, k + 1)
    else PathsVia(g, n, k + 1)
  }

  ghost function Prefixed(i: nat, ps: seq<seq<nat>>): (r: seq<seq<nat>>)
    ensures |r| == |ps| && forall k :: 0 <= k < |ps| ==> r[k] == [i] + ps[k]
  {
    seq(|ps|, k requires 0 <= k < |ps| => [i] + ps[k])
  }

  lemma PrefixedMember(g: Graph, p: seq<nat>, i: nat, tails: seq<seq<nat>>, n: nat)
    requires i < |g.arcs| && g.arcs[i].start == n
    requires forall q :: q in tails <==> IsPath(g, q, g.arcs[i].end, g.finalNode)
    ensures p in Prefixed(i, tails) <==> IsPath(g, p, n, g.finalNode) && p != [] && p[0] == i
  {
    var added := Prefixed(i, tails);
    if p in added {
      var k :| 0 <= k < |added| && added[k] == p;
      assert tails[k] in tails;
    }
    if IsPath(g, p, n, g.finalNode) && p != [] && p[0] == i {
      assert p[1..] in tails;
      var k :| 0 <= k < |tails| && tails[k] == p[1..];
      assert added[k] == p;
    }
  }

  lemma PrefixedDistinct(i: nat, tails: seq<seq<nat>>)
    requires Distinct(tails)
    ensures Distinct(Prefixed(i, tails))
  {
    forall a, b | 0 <= a < b < |tails|
      ensures Prefixed(i, tails)[a] != Prefixed(i, tails)[b]
    {
      assert Prefixed(i, tails)[a][1..] == tails[a] && Prefixed(i, tails)[b][1..] == tails[b];
    }
  }

  lemma {:induction false} PathsViaEnumerate(g: Graph, n: nat, k: nat)
    requires Forwards(g) && n < g.finalNode && k <= |g.arcs|
    ensures forall p :: p in PathsVia(g, n, k) <==> IsPath(g, p, n, g.finalNode) && p != [] && p[0] >= k
    ensures Distinct(PathsVia(g, n, k))
    decreases g.finalNode - n, |g.arcs| - k
  {
    if k < |g.arcs| {
      PathsViaEnumerate(g, n, k + 1);
      if g.arcs[k].start == n {
        var tails := PathsFrom(g, g.arcs[k].end);
        PathsFromEnumerate(g, g.arcs[k].end);
        PrefixedDistinct(k, tails);
        forall p
          ensures p in Prefixed(k, tails) <==> IsPath(g, p, n, g.finalNode) && p != [] && p[0] == k
        {
          PrefixedMember(g, p, k, tails, n);
        }
        var first, later := Prefixed(k, tails), PathsVia(g, n, k + 1);
        forall a, b | 0 <= a < |first| && 0 <= b < |later|
          ensures first[a] != later[b]
        {
          assert first[a] in first && later[b] in later;
        }
      }
    }
  }

  /** PathsFrom lists exactly the paths to the final node, each once. */
  lemma {:induction false} PathsFromEnumerate(g: Graph, n: nat)
    requires Forwards(g) && n <= g.finalNode
    ensures forall p :: p in PathsFrom(g, n) <==> IsPath(g, p, n, g.finalNode)
    ensures Distinct(PathsFrom(g, n))
    decreases g.finalNode - n, |g.arcs| + 1
  {
    if n == g.finalNode {
      forall p | IsPath(g, p, n, n)
        ensures p == []
      {
        PathForward(g, p, n, n);
      }
    } else {
      PathsViaEnumerate(g, n, 0);
    }
  }

  lemma {:induction false} ProductSumConcat(prob: seq<real>, a: seq<seq<nat>>, b: seq<seq<nat>>)
    requires AllInBounds(prob, a) && AllInBounds(prob, b)
    ensures ProductSum(prob, a + b) == ProductSum(prob, a) + ProductSum(prob, b)
  {
    if a == [] {
      assert a + b == b;
    } else {
      ProductSumConcat(prob, a[1..], b);
      assert (a + b)[1..] == a[1..] + b;
    }
  }

  lemma {:induction false} ProductSumPrefixed(prob: seq<real>, i: nat, ps: seq<seq<nat>>)
    requires i < |prob| && AllInBounds(prob, ps)
    ensures AllInBounds(prob, Prefixed(i, ps))
    ensures ProductSum(prob, Prefixed(i, ps)) == prob[i] * ProductSum(prob, ps)
  {
    if ps != [] {
      ProductSumPrefixed(prob, i, ps[1..]);
      assert Prefixed(i, ps)[1..] == Prefixed(i, ps[1..]);
      assert ([i] + ps[0])[1..] == ps[0];
      Distribute(prob[i], Product(prob, ps[0]), ProductSum(prob, ps[1..]));
    }
  }

  /** Adding the paths through arc k to a path sum. */
  lemma PathSumStep(prob: seq<real>, k: nat, tails: seq<seq<nat>>, later: seq<seq<nat>>)
    requires k < |prob| && AllInBounds(prob, tails) && AllInBounds(prob, later)
    ensures AllInBounds(prob, Prefixed(k, tails)) && AllInBounds(prob, Prefixed(k, tails) + later)
    ensures ProductSum(prob, Prefixed(k, tails) + later) ==
            prob[k] * ProductSum(prob, tails) + ProductSum(prob, later)
  {
    hide ProductSum;
    ProductSumPrefixed(prob, k, tails);
    ProductSumConcat(prob, Prefixed(k, tails), later);
  }

  lemma OutflowStep(g: Graph, prob: seq<real>, bwd: seq<real>, n: nat, k: nat)
    requires Probs(g, prob) && |bwd| == g.finalNode + 1 && n < g.finalNode && k < |g.arcs| && g.arcs[k].start == n
    requires AllInBounds(prob, PathsVia(g, n, k + 1)) && AllInBounds(prob, PathsFrom(g, g.arcs[k].end))
    requires Outflow(g, prob, bwd, n, k + 1) == ProductSum(prob, PathsVia(g, n, k + 1))
    requires bwd[g.arcs[k].end] == ProductSum(prob, PathsFrom(g, g.arcs[k].end))
    ensures AllInBounds(prob, PathsVia(g, n, k))
    ensures Outflow(g, prob, bwd, n, k) == ProductSum(prob, PathsVia(g, n, k))
  {
    hide ProductSum, PathsFrom, AllInBounds;
    var tails, later := PathsFrom(g, g.arcs[k].end), PathsVia(g, n, k + 1);
    PathSumStep(prob, k, tails, later);
  }

  lemma {:induction false} OutflowIsPathSum(g: Graph, prob: seq<real>, bwd: seq<real>, n: nat, k: nat)
    requires IsBackward(g, prob, bwd) && n < g.finalNode && k <= |g.arcs|
    ensures AllInBounds(prob, PathsVia(g, n, k))
    ensures Outflow(g, prob, bwd, n, k) == ProductSum(prob, PathsVia(g, n, k))
    decreases g.finalNode - n, |g.arcs| - k
  {
    if k < |g.arcs| {
      OutflowIsPathSum(g, prob, bwd, n, k + 1);
      if g.arcs[k].start == n {
        BackwardIsPathSum(g, prob, bwd, g.arcs[k].end);
        hide IsBackward, ProductSum, PathsFrom, PathsVia, AllInBounds, Outflow;
        OutflowStep(g, prob, bwd, n, k);
      }
    }
  }

  /** The backward mass of a node is the sum, over all paths to the final node, of the
      product of their arc probabilities. */
  lemma {:induction false} BackwardIsPathSum(g: Graph, prob: seq<real>, bwd: seq<real>, n: nat)
    requires IsBackward(g, prob, bwd) && n <= g.finalNode
    ensures AllInBounds(prob, PathsFrom(g, n))
    ensures bwd[n] == ProductSum(prob, PathsFrom(g, n))
    decreases g.finalNode - n, |g.arcs| + 1
  {
    if n < g.finalNode {
      OutflowIsPathSum(g, prob, bwd, n, 0);
    }
  }

  lemma {:induction false} BackwardPositive(g: Graph, prob: seq<real>, bwd: seq<real>, n: nat)
    requires WellFormed(g) && IsBackward(g, prob, bwd) && n <= g.finalNode
    requires forall i :: 0 <= i < |prob| ==> prob[i] > 0.0
    ensures bwd[n] > 0.0
    decreases g.finalNode - n
  {
    if n < g.finalNode {
      forall m | n < m <= g.finalNode
        ensures bwd[m] > 0.0
      {
        BackwardPositive(g, prob, bwd, m);
      }
      assert HasArc(g, n);
      var i :| 0 <= i < |g.arcs| && g.arcs[i].start == n;
      OutflowPositive(g, prob, bwd, n, 0, i);
    }
  }

  lemma {:induction false} OutflowPositive(g: Graph, prob: seq<real>, bwd: seq<real>, n: nat, k: nat, i: nat)
    requires Probs(g, prob) && |bwd| == g.finalNode + 1 && k <= |g.arcs|
    requires forall j :: 0 <= j < |prob| ==> prob[j] > 0.0
    requires forall m :: n < m <= g.finalNode ==> bwd[m] > 0.0
    ensures Outflow(g, prob, bwd, n, k) >= 0.0
    ensures k <= i < |g.arcs| && g.arcs[i].start == n ==> Outflow(g, prob, bwd, n, k) > 0.0
    decreases |g.arcs| - k
  {
    if k < |g.arcs| {
      OutflowPositive(g, prob, bwd, n, k + 1, i);
      if g.arcs[k].start == n {
        assert prob[k] * bwd[g.arcs[k].end] > 0.0;
      }
    }
  }

  // ----- the flow over the arcs that cross a cut -----

  /** Unnormalised posterior of arc i. */
  ghost function ArcMass(g: Graph, prob: seq<real>, fwd: seq<real>, bwd: seq<real>, i: nat): real
    requires Probs(g, prob) && |fwd| == |bwd| == g.finalNode + 1 && i < |g.arcs|
  {
    fwd[g.arcs[i].start] * prob[i] * bwd[g.arcs[i].end]
  }

  /** Mass of the arcs from k on that start before node n and end at n or later. */
  ghost function CutMass(g: Graph, mass: seq<real>, n: nat, k: nat): real
    requires |mass| == |g.arcs| && k <= |g.arcs|
  {
    if k == 0 then 0.0
    else CutMass(g, mass, n, k - 1) + (if g.arcs[k - 1].start < n <= g.arcs[k - 1].end then mass[k - 1] else 0.0)
  }

  /** What the first k arcs take out of node n. */
  ghost function OutBefore(g: Graph, prob: seq<real>, bwd: seq<real>, n: nat, k: nat): real
    requires Probs(g, prob) && |bwd| == g.finalNode + 1 && k <= |g.arcs|
  {
    if k == 0 then 0.0
    else
      OutBefore(g, prob, bwd, n, k - 1)
      + (if g.arcs[k - 1].start == n then prob[k - 1] * bwd[g.arcs[k - 1].end] else 0.0)
  }

  lemma {:induction false} OutSplit(g: Graph, prob: seq<real>, bwd: seq<real>, n: nat, k: nat)
    requires Probs(g, prob) && |bwd| == g.finalNode + 1 && k <= |g.arcs|
    ensures OutBefore(g, prob, bwd, n, k) + Outflow(g, prob, bwd, n, k) == Outflow(g, prob, bwd, n, 0)
  {
    if k > 0 {
      OutSplit(g, prob, bwd, n, k - 1);
    }
  }

  ghost predicate IsMass(g: Graph, prob: seq<real>, fwd: seq<real>, bwd: seq<real>, mass: seq<real>)
  {
    && Probs(g, prob) && |fwd| == |bwd| == g.finalNode + 1
    && |mass| == |g.arcs|
    && forall i :: 0 <= i < |g.arcs| ==> mass[i] == ArcMass(g, prob, fwd, bwd, i)
  }

  /** Mass of the first k arcs that end at (start at) node n. */
  ghost function InMass(g: Graph, mass: seq<real>, n: nat, k: nat): real
    requires |mass| == |g.arcs| && k <= |g.arcs|
  {
    if k == 0 then 0.0 else InMass(g, mass, n, k - 1) + (if g.arcs[k - 1].end == n then mass[k - 1] else 0.0)
  }

  ghost function OutMass(g: Graph, mass: seq<real>, n: nat, k: nat): real
    requires |mass| == |g.arcs| && k <= |g.arcs|
  {
    if k == 0 then 0.0 else OutMass(g, mass, n, k - 1) + (if g.arcs[k - 1].start == n then mass[k - 1] else 0.0)
  }

  /** Moving the cut past node n swaps the arcs into n for the arcs out of n. */
  lemma {:induction false} CutStep(g: Graph, mass: seq<real>, n: nat, k: nat)
    requires Forwards(g) && |mass| == |g.arcs| && k <= |g.arcs|
    ensures CutMass(g, mass, n + 1, k) + InMass(g, mass, n, k) == CutMass(g, mass, n, k) + OutMass(g, mass, n, k)
  {
    if k > 0 {
      CutStep(g, mass, n, k - 1);
    }
  }

  lemma {:induction false} InMassFactors(g: Graph, prob: seq<real>, fwd: seq<real>, bwd: seq<real>, mass: seq<real>,
                                         n: nat, k: nat)
    requires IsMass(g, prob, fwd, bwd, mass) && n <= g.finalNode && k <= |g.arcs|
    ensures InMass(g, mass, n, k) == bwd[n] * Inflow(g, prob, fwd, n, k)
  {
    if k > 0 {
      InMassFactors(g, prob, fwd, bwd, mass, n, k - 1);
      if g.arcs[k - 1].end == n {
        var q := fwd[g.arcs[k - 1].start] * prob[k - 1];
        Distribute(bwd[n], Inflow(g, prob, fwd, n, k - 1), q);
        assert mass[k - 1] == q * bwd[n];
      }
    }
  }

  lemma {:induction false} OutMassFactors(g: Graph, prob: seq<real>, fwd: seq<real>, bwd: seq<real>, mass: seq<real>,
                                          n: nat, k: nat)
    requires IsMass(g, prob, fwd, bwd, mass) && n <= g.finalNode && k <= |g.arcs|
    ensures OutMass(g, mass, n, k) == fwd[n] * OutBefore(g, prob, bwd, n, k)
  {
    if k > 0 {
      OutMassFactors(g, prob, fwd, bwd, mass, n, k - 1);
      if g.arcs[k - 1].start == n {
        var q := prob[k - 1] * bwd[g.arcs[k - 1].end];
        Distribute(fwd[n], OutBefore(g, prob, bwd, n, k - 1), q);
        Associate(fwd[n], prob[k - 1], bwd[g.arcs[k - 1].end]);
      }
    }
  }

  lemma Associate(a: real, b: real, c: real)
    ensures a * b * c == a * (b * c)
  {
  }

  lemma {:induction false} NoCrossing(g: Graph, mass: seq<real>, n: nat, k: nat)
    requires Forwards(g) && |mass| == |g.arcs| && k <= |g.arcs| && (n == 0 || n > g.finalNode)
    ensures CutMass(g, mass, n, k) == 0.0
    ensures InMass(g, mass, 0, k) == 0.0
    ensures OutMass(g, mass, g.finalNode, k) == 0.0
  {
    if k > 0 {
      NoCrossing(g, mass, n, k - 1);
    }
  }

  lemma {:induction false} CutIsTotal(g: Graph, prob: seq<real>, fwd: seq<real>, bwd: seq<real>, mass: seq<real>,
                                      n: nat)
    requires IsForward(g, prob, fwd) && IsBackward(g, prob, bwd) && IsMass(g, prob, fwd, bwd, mass)
    requires 0 < n <= g.finalNode
    ensures CutMass(g, mass, n, |g.arcs|) == bwd[0]
  {
    var k := |g.arcs|;
    CutStep(g, mass, n - 1, k);
    OutMassFactors(g, prob, fwd, bwd, mass, n - 1, k);
    OutSplit(g, prob, bwd, n - 1, k);
    if n == 1 {
      NoCrossing(g, mass, 0, k);
    } else {
      CutIsTotal(g, prob, fwd, bwd, mass, n - 1);
      InMassFactors(g, prob, fwd, bwd, mass, n - 1, k);
    }
  }

  lemma TotalsAgree(g: Graph, prob: seq<real>, fwd: seq<real>, bwd: seq<real>, mass: seq<real>)
    requires IsForward(g, prob, fwd) && IsBackward(g, prob, bwd) && IsMass(g, prob, fwd, bwd, mass)
    ensures fwd[g.finalNode] == bwd[0]
  {
    var k := |g.arcs|;
    CutIsTotal(g, prob, fwd, bwd, mass, g.finalNode);
    CutStep(g, mass, g.finalNode, k);
    NoCrossing(g, mass, g.finalNode + 1, k);
    InMassFactors(g, prob, fwd, bwd, mass, g.finalNode, k);
  }

  /** Normalised by the total, the arc masses. */
  ghost function Posteriors(mass: seq<real>, total: real): seq<real>
    requires total != 0.0
  {
    seq(|mass|, i requires 0 <= i < |mass| => mass[i] / total)
  }

  lemma {:induction false} CutScale(g: Graph, mass: seq<real>, total: real, n: nat, k: nat)
    requires |mass| == |g.arcs| && k <= |g.arcs| && total != 0.0
    ensures CutMass(g, Posteriors(mass, total), n, k) == CutMass(g, mass, n, k) / total
  {
    if k > 0 {
      CutScale(g, mass, total, n, k - 1);
      QuotientsAdd(CutMass(g, mass, n, k - 1), mass[k - 1], total);
    }
  }

  /** Posteriors are a unit flow: forward and backward totals agree with the sum of the path
      products, and the posteriors of the arcs over any cut add up to 1. */
  lemma UnitFlow(g: Graph, prob: seq<real>, fwd: seq<real>, bwd: seq<real>, mass: seq<real>, n: nat)
    requires IsForward(g, prob, fwd) && IsBackward(g, prob, bwd) && IsMass(g, prob, fwd, bwd, mass)
    requires 0 < n <= g.finalNode
    ensures AllInBounds(prob, PathsFrom(g, 0))
    ensures fwd[g.finalNode] == bwd[0] == ProductSum(prob, PathsFrom(g, 0))
    ensures bwd[0] != 0.0 ==> CutMass(g, Posteriors(mass, bwd[0]), n, |g.arcs|) == 1.0
  {
    BackwardIsPathSum(g, prob, bwd, 0);
    TotalsAgree(g, prob, fwd, bwd, mass);
    CutIsTotal(g, prob, fwd, bwd, mass, n);
    if bwd[0] != 0.0 {
      CutScale(g, mass, bwd[0], n, |g.arcs|);
      assert bwd[0] / bwd[0] == 1.0;
    }
  }
}
