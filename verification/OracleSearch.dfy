/** The invariant of the best-first search for the oracle word error rate. */
module OracleSearch {
  import opened Sequences
  import opened LatticeGraph
  import opened LatticeOracle

  /** A queue entry: cost so far, path score, last arc (-1 at the start), reference positions. */
  datatype OraclePath = OraclePath(wer: int, score: real, arcIndex: int, prevRefIndex: nat, refIndex: nat)

  predicate ArcOk(g: Graph, q: OraclePath)
  {
    -1 <= q.arcIndex < |g.arcs|
  }

  function NodeOf(g: Graph, q: OraclePath): nat
    requires ArcOk(g, q)
  {
    if q.arcIndex == -1 then 0 else g.arcs[q.arcIndex].end
  }

  function StateOf(g: Graph, q: OraclePath): State
    requires ArcOk(g, q)
  {
    (NodeOf(g, q), q.refIndex)
  }

  /** The order of the priority queue: cost first, score second. */
  predicate AtLeastAsGood(p: OraclePath, q: OraclePath)
  {
    p.wer < q.wer || (p.wer == q.wer && p.score <= q.score)
  }

  function Remove<T>(s: seq<T>, k: nat): seq<T>
    requires k < |s|
  {
    s[..k] + s[k + 1..]
  }

  lemma RemoveMembers<T>(s: seq<T>, k: nat)
    requires k < |s|
    ensures forall x :: x in Remove(s, k) ==> x in s
    ensures forall x :: x in s && x != s[k] ==> x in Remove(s, k)
  {
    assert s == s[..k] + [s[k]] + s[k + 1..];
  }

  // ----- successors of a popped entry -----

  function SubItem(g: Graph, ref: seq<int>, q: OraclePath, i: nat): OraclePath
    requires i < |g.arcs| && q.refIndex < |ref|
  {
    OraclePath(q.wer + (if g.arcs[i].word == ref[q.refIndex] then 0 else 1),
               q.score + g.arcs[i].weight, i, q.refIndex, q.refIndex + 1)
  }

  function DelItem(q: OraclePath): OraclePath
  {
    OraclePath(q.wer + 1, q.score, q.arcIndex, q.refIndex, q.refIndex + 1)
  }

  function InsItem(g: Graph, q: OraclePath, i: nat): OraclePath
    requires i < |g.arcs|
  {
    OraclePath(q.wer + 1, q.score + g.arcs[i].weight, i, q.refIndex, q.refIndex)
  }

  function EpsItem(g: Graph, q: OraclePath, i: nat): OraclePath
    requires i < |g.arcs|
  {
    OraclePath(q.wer, q.score + g.arcs[i].weight, i, q.refIndex, q.refIndex)
  }

  /** q' is one move away from q and costs what the move costs. */
  ghost predicate IsSuccessor(g: Graph, ref: seq<int>, q: OraclePath, q': OraclePath)
    requires ArcOk(g, q)
  {
    exists m :: CanMove(g, ref, StateOf(g, q), m) && Performs(g, ref, q, m, q')
  }

  /** Every pushed entry is a move out of q. */
  ghost predicate OnlySuccessors(g: Graph, ref: seq<int>, q: OraclePath, pushed: seq<OraclePath>)
    requires ArcOk(g, q)
  {
    forall q' :: q' in pushed ==> IsSuccessor(g, ref, q, q')
  }

  /** Every move out of q is pushed. */
  ghost predicate AllSuccessors(g: Graph, ref: seq<int>, q: OraclePath, pushed: seq<OraclePath>)
    requires ArcOk(g, q)
  {
    forall m :: CanMove(g, ref, StateOf(g, q), m) ==>
      exists q' :: q' in pushed && Performs(g, ref, q, m, q')
  }

  ghost predicate Performs(g: Graph, ref: seq<int>, q: OraclePath, m: Move, q': OraclePath)
    requires ArcOk(g, q) && CanMove(g, ref, StateOf(g, q), m)
  {
    && ArcOk(g, q')
    && StateOf(g, q') == Target(g, ref, StateOf(g, q), m)
    && q'.wer == q.wer + MoveCost(g, ref, StateOf(g, q), m)
  }

  /** What the three loops over the arcs lo .. hi and the deletion push, in order. */
  function Successors(g: Graph, ref: seq<int>, q: OraclePath, lo: nat, hi: nat): seq<OraclePath>
    requires lo <= hi <= |g.arcs|
  {
    (if q.refIndex < |ref| then Subs(g, ref, q, lo, hi) + [DelItem(q)] else [])
    + Inss(g, q, lo, hi) + Epss(g, q, lo, hi)
  }

  function Subs(g: Graph, ref: seq<int>, q: OraclePath, lo: nat, hi: nat): (s: seq<OraclePath>)
    requires lo <= hi <= |g.arcs| && q.refIndex < |ref|
    ensures forall q' :: q' in s <==> exists i :: lo <= i < hi && q' == SubItem(g, ref, q, i)
  {
    if lo == hi then [] else Subs(g, ref, q, lo, hi - 1) + [SubItem(g, ref, q, hi - 1)]
  }

  function Inss(g: Graph, q: OraclePath, lo: nat, hi: nat): (s: seq<OraclePath>)
    requires lo <= hi <= |g.arcs|
    ensures forall q' :: q' in s <==> exists i :: lo <= i < hi && q' == InsItem(g, q, i)
  {
    if lo == hi then [] else Inss(g, q, lo, hi - 1) + [InsItem(g, q, hi - 1)]
  }

  function Epss(g: Graph, q: OraclePath, lo: nat, hi: nat): (s: seq<OraclePath>)
    requires lo <= hi <= |g.arcs|
    ensures forall q' :: q' in s <==> exists i :: lo <= i < hi && g.arcs[i].word == 0 && q' == EpsItem(g, q, i)
  {
    if lo == hi then []
    else Epss(g, q, lo, hi - 1) + if g.arcs[hi - 1].word == 0 then [EpsItem(g, q, hi - 1)] else []
  }

  lemma SuccessorsAreMoves(g: Graph, ref: seq<int>, q: OraclePath, lo: nat, hi: nat)
    requires ArcOk(g, q) && ArcsOf(g, NodeOf(g, q), lo, hi)
    ensures OnlySuccessors(g, ref, q, Successors(g, ref, q, lo, hi))
  {
    forall q' | q' in Successors(g, ref, q, lo, hi)
      ensures IsSuccessor(g, ref, q, q')
    {
      if q.refIndex < |ref| && q' in Subs(g, ref, q, lo, hi) {
        var i :| lo <= i < hi && q' == SubItem(g, ref, q, i);
        assert Performs(g, ref, q, Sub(i), q');
      } else if q.refIndex < |ref| && q' == DelItem(q) {
        assert Performs(g, ref, q, Del, q');
      } else if q' in Inss(g, q, lo, hi) {
        var i :| lo <= i < hi && q' == InsItem(g, q, i);
        assert Performs(g, ref, q, Ins(i), q');
      } else {
        var i :| lo <= i < hi && g.arcs[i].word == 0 && q' == EpsItem(g, q, i);
        assert Performs(g, ref, q, Eps(i), q');
      }
    }
  }

  lemma MovesAreSuccessors(g: Graph, ref: seq<int>, q: OraclePath, lo: nat, hi: nat)
    requires ArcOk(g, q) && ArcsOf(g, NodeOf(g, q), lo, hi)
    ensures AllSuccessors(g, ref, q, Successors(g, ref, q, lo, hi))
  {
    var pushed := Successors(g, ref, q, lo, hi);
    forall m | CanMove(g, ref, StateOf(g, q), m)
      ensures exists q' :: q' in pushed && Performs(g, ref, q, m, q')
    {
      var q' := match m
        case Sub(i) => SubItem(g, ref, q, i)
        case Del => DelItem(q)
        case Ins(i) => InsItem(g, q, i)
        case Eps(i) => EpsItem(g, q, i);
      match m {
        case Sub(i) => assert q' in Subs(g, ref, q, lo, hi);
        case Del =>
        case Ins(i) => assert q' in Inss(g, q, lo, hi);
        case Eps(i) => assert q' in Epss(g, q, lo, hi);
      }
      assert q' in pushed && Performs(g, ref, q, m, q');
    }
  }

  // ----- the invariant -----

  /** State s is settled at cost c or better, or an entry of the queue brings it there. */
  ghost predicate Covered(g: Graph, queue: seq<OraclePath>, dist: map<State, int>, s: State, c: int)
  {
    || (s in dist && dist[s] <= c)
    || exists q :: q in queue && ArcOk(g, q) && StateOf(g, q) == s && q.wer <= c
  }

  ghost predicate ItemsReached(g: Graph, ref: seq<int>, queue: seq<OraclePath>)
  {
    forall q :: q in queue ==> ArcOk(g, q) && q.refIndex <= |ref| && Reaches(g, ref, StateOf(g, q), q.wer)
  }

  ghost predicate SettledFirst(queue: seq<OraclePath>, dist: map<State, int>)
  {
    forall s, q :: s in dist && q in queue ==> dist[s] <= q.wer
  }

  ghost predicate MovesCovered(g: Graph, ref: seq<int>, queue: seq<OraclePath>, dist: map<State, int>)
  {
    forall s, m :: s in dist && CanMove(g, ref, s, m) ==>
      Covered(g, queue, dist, Target(g, ref, s, m), dist[s] + MoveCost(g, ref, s, m))
  }

  ghost predicate OracleInv(g: Graph, ref: seq<int>, queue: seq<OraclePath>, dist: map<State, int>)
  {
    && ItemsReached(g, ref, queue)
    && Covered(g, queue, dist, (0, 0), 0)
    && SettledFirst(queue, dist)
    && MovesCovered(g, ref, queue, dist)
    && (g.finalNode, |ref|) !in dist
  }

  lemma InvStart(g: Graph, ref: seq<int>)
    ensures OracleInv(g, ref, [OraclePath(0, 0.0, -1, 0, 0)], map[])
  {
    assert Run(g, ref, [], (0, 0), 0);
    var q := OraclePath(0, 0.0, -1, 0, 0);
    assert q in [q] && StateOf(g, q) == (0, 0);
  }

  /** Dropping an entry whose state is settled keeps the invariant. */
  lemma InvSkip(g: Graph, ref: seq<int>, queue: seq<OraclePath>, dist: map<State, int>, k: nat)
    requires OracleInv(g, ref, queue, dist) && k < |queue|
    requires StateOf(g, queue[k]) in dist
    ensures OracleInv(g, ref, Remove(queue, k), dist)
  {
    var rest := Remove(queue, k);
    RemoveMembers(queue, k);
    forall s, c | Covered(g, queue, dist, s, c)
      ensures Covered(g, rest, dist, s, c)
    {
      if !(s in dist && dist[s] <= c) {
        var q :| q in queue && ArcOk(g, q) && StateOf(g, q) == s && q.wer <= c;
        assert q != queue[k];
        assert q in rest;
      }
    }
  }

  lemma CoveredAfterExpand(g: Graph, queue: seq<OraclePath>, dist: map<State, int>, k: nat,
                           pushed: seq<OraclePath>, s: State, c: int)
    requires k < |queue| && ArcOk(g, queue[k]) && StateOf(g, queue[k]) !in dist
    requires Covered(g, queue, dist, s, c)
    ensures Covered(g, Remove(queue, k) + pushed, dist[StateOf(g, queue[k]) := queue[k].wer], s, c)
  {
    RemoveMembers(queue, k);
    if !(s in dist && dist[s] <= c) {
      var q :| q in queue && ArcOk(g, q) && StateOf(g, q) == s && q.wer <= c;
      if q != queue[k] {
        assert q in Remove(queue, k) + pushed;
      }
    }
  }

  lemma SuccessorReached(g: Graph, ref: seq<int>, q: OraclePath, q': OraclePath)
    requires ArcOk(g, q) && Reaches(g, ref, StateOf(g, q), q.wer) && q.refIndex <= |ref|
    requires IsSuccessor(g, ref, q, q')
    ensures ArcOk(g, q') && q'.refIndex <= |ref| && Reaches(g, ref, StateOf(g, q'), q'.wer)
    ensures q.wer <= q'.wer
  {
    var m :| CanMove(g, ref, StateOf(g, q), m) && Performs(g, ref, q, m, q');
    RunStep(g, ref, StateOf(g, q), q.wer, m);
  }

  lemma PushedReached(g: Graph, ref: seq<int>, q: OraclePath, pushed: seq<OraclePath>)
    requires ArcOk(g, q) && Reaches(g, ref, StateOf(g, q), q.wer) && q.refIndex <= |ref|
    requires OnlySuccessors(g, ref, q, pushed)
    ensures ItemsReached(g, ref, pushed)
    ensures forall q' :: q' in pushed ==> q.wer <= q'.wer
  {
    forall q' | q' in pushed
      ensures ArcOk(g, q') && q'.refIndex <= |ref| && Reaches(g, ref, StateOf(g, q'), q'.wer)
      ensures q.wer <= q'.wer
    {
      SuccessorReached(g, ref, q, q');
    }
  }

  lemma MovesAfterExpand(g: Graph, ref: seq<int>, queue: seq<OraclePath>, dist: map<State, int>, k: nat,
                         pushed: seq<OraclePath>)
    requires MovesCovered(g, ref, queue, dist) && k < |queue| && ArcOk(g, queue[k])
    requires StateOf(g, queue[k]) !in dist && AllSuccessors(g, ref, queue[k], pushed)
    ensures MovesCovered(g, ref, Remove(queue, k) + pushed, dist[StateOf(g, queue[k]) := queue[k].wer])
  {
    var t := StateOf(g, queue[k]);
    var queue', dist' := Remove(queue, k) + pushed, dist[t := queue[k].wer];
    forall s, m | s in dist' && CanMove(g, ref, s, m)
      ensures Covered(g, queue', dist', Target(g, ref, s, m), dist'[s] + MoveCost(g, ref, s, m))
    {
      if s == t {
        var q' :| q' in pushed && Performs(g, ref, queue[k], m, q');
        assert q' in queue';
      } else {
        CoveredAfterExpand(g, queue, dist, k, pushed, Target(g, ref, s, m), dist[s] + MoveCost(g, ref, s, m));
      }
    }
  }

  /** Settling the popped state and pushing its moves keeps the invariant. */
  lemma InvExpand(g: Graph, ref: seq<int>, queue: seq<OraclePath>, dist: map<State, int>, k: nat,
                  pushed: seq<OraclePath>)
    requires OracleInv(g, ref, queue, dist) && k < |queue|
    requires forall q :: q in queue ==> queue[k].wer <= q.wer
    requires StateOf(g, queue[k]) !in dist && StateOf(g, queue[k]) != (g.finalNode, |ref|)
    requires AllSuccessors(g, ref, queue[k], pushed) && ItemsReached(g, ref, pushed)
    requires forall q :: q in pushed ==> queue[k].wer <= q.wer
    ensures OracleInv(g, ref, Remove(queue, k) + pushed, dist[StateOf(g, queue[k]) := queue[k].wer])
  {
    RemoveMembers(queue, k);
    CoveredAfterExpand(g, queue, dist, k, pushed, (0, 0), 0);
    MovesAfterExpand(g, ref, queue, dist, k, pushed);
  }

  /** The same for the entries the search actually pushes. */
  lemma InvStep(g: Graph, ref: seq<int>, queue: seq<OraclePath>, dist: map<State, int>, k: nat, lo: nat, hi: nat)
    requires OracleInv(g, ref, queue, dist) && k < |queue|
    requires forall q :: q in queue ==> queue[k].wer <= q.wer
    requires StateOf(g, queue[k]) !in dist && StateOf(g, queue[k]) != (g.finalNode, |ref|)
    requires ArcsOf(g, NodeOf(g, queue[k]), lo, hi)
    ensures OracleInv(g, ref, Remove(queue, k) + Successors(g, ref, queue[k], lo, hi),
                      dist[StateOf(g, queue[k]) := queue[k].wer])
  {
    var pushed := Successors(g, ref, queue[k], lo, hi);
    assert ItemsReached(g, ref, pushed) && (forall q :: q in pushed ==> queue[k].wer <= q.wer) by {
      SuccessorsAreMoves(g, ref, queue[k], lo, hi);
      PushedReached(g, ref, queue[k], pushed);
    }
    MovesAreSuccessors(g, ref, queue[k], lo, hi);
    InvExpand(g, ref, queue, dist, k, pushed);
  }

  /** Along every run the search has either settled the end at that cost or still holds an
      entry that costs no more. */
  lemma {:induction false} RunIsCovered(g: Graph, ref: seq<int>, queue: seq<OraclePath>, dist: map<State, int>,
                                        ms: seq<Move>, s: State, c: int)
    requires OracleInv(g, ref, queue, dist) && Run(g, ref, ms, s, c)
    ensures (s in dist && dist[s] <= c) || exists q :: q in queue && q.wer <= c
    decreases |ms|
  {
    if ms != [] {
      var s': State, c' :| Run(g, ref, Init(ms), s', c') && Steps(g, ref, s', c', Last(ms), s, c);
      RunIsCovered(g, ref, queue, dist, Init(ms), s', c');
      if s' in dist && dist[s'] <= c' {
        assert Covered(g, queue, dist, s, dist[s'] + MoveCost(g, ref, s', Last(ms)));
      }
    }
  }

  /** The first popped entry that completes the search carries the oracle rate. */
  lemma FirstCompleteIsOracle(g: Graph, ref: seq<int>, queue: seq<OraclePath>, dist: map<State, int>, k: nat)
    requires OracleInv(g, ref, queue, dist) && k < |queue|
    requires forall q :: q in queue ==> queue[k].wer <= q.wer
    requires StateOf(g, queue[k]) == (g.finalNode, |ref|)
    ensures IsOracleWER(g, ref, queue[k].wer)
  {
    forall c | Reaches(g, ref, (g.finalNode, |ref|), c)
      ensures queue[k].wer <= c
    {
      var ms :| Run(g, ref, ms, (g.finalNode, |ref|), c);
      RunIsCovered(g, ref, queue, dist, ms, (g.finalNode, |ref|), c);
    }
  }

  /** The queue cannot run dry: some run completes, and it is covered. */
  lemma QueueNeverEmpty(g: Graph, ref: seq<int>, queue: seq<OraclePath>, dist: map<State, int>)
    requires WellFormed(g) && OracleInv(g, ref, queue, dist)
    ensures queue != []
  {
    var p := FinalReachable(g, 0);
    PathHasRun(g, ref, p, g.finalNode, |ref|);
    var c := Away(g, p, ref, |ref|);
    var ms :| Run(g, ref, ms, (g.finalNode, |ref|), c);
    RunIsCovered(g, ref, queue, dist, ms, (g.finalNode, |ref|), c);
  }
}
