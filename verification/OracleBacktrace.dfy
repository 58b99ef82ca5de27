/** Reading a path back from the recorded parents of the oracle search. The deletion push records
    the start of the last arc as parent, so the path need not be the one that was searched; the
    loops end and find an arc at every step all the same. */
module OracleBacktrace {
  import opened LatticeGraph
  import opened LatticeOracle
  import opened OracleSearch

  /** Node n is the start, or some arc leads to it. */
  ghost predicate Entered(g: Graph, n: nat)
  {
    n == 0 || exists i :: 0 <= i < |g.arcs| && g.arcs[i].end == n
  }

  /** What is recorded as the parent of an entry's state. */
  function ParentOf(g: Graph, q: OraclePath): State
    requires ArcOk(g, q)
  {
    (if q.arcIndex == -1 then 0 else g.arcs[q.arcIndex].start, q.prevRefIndex)
  }

  /** The last arc of an entry starts where the search has been; without an arc it has moved on. */
  ghost predicate ItemOk(g: Graph, q: OraclePath)
  {
    && ArcOk(g, q)
    && (q.arcIndex == -1 ==> q.refIndex == 0 || q.prevRefIndex < q.refIndex)
    && (q.arcIndex >= 0 ==> Entered(g, g.arcs[q.arcIndex].start))
  }

  ghost predicate ItemsOk(g: Graph, queue: seq<OraclePath>)
  {
    forall q :: q in queue ==> ItemOk(g, q)
  }

  ghost predicate Before(s: State, t: State)
  {
    s.0 < t.0 || (s.0 == t.0 && s.1 < t.1)
  }

  /** A parent comes before its state, and an arc connects the nodes when they differ. */
  ghost predicate ParentOk(g: Graph, s: State, parent: State)
  {
    s == (0, 0) || (Before(parent, s) && Entered(g, parent.0) && (parent.0 != s.0 ==> Joined(g, parent.0, s.0)))
  }

  ghost predicate Joined(g: Graph, a: nat, b: nat)
  {
    exists i :: 0 <= i < |g.arcs| && g.arcs[i].start == a && g.arcs[i].end == b
  }

  ghost predicate ParentsOk(g: Graph, parents: map<State, State>)
  {
    forall s :: s in parents ==> ParentOk(g, s, parents[s])
  }

  /** Recording the parent of an entry. */
  lemma RecordedOk(g: Graph, parents: map<State, State>, q: OraclePath)
    requires Forwards(g) && ItemOk(g, q) && ParentsOk(g, parents)
    ensures ParentsOk(g, parents[StateOf(g, q) := ParentOf(g, q)])
  {
    if q.arcIndex >= 0 {
      assert g.arcs[q.arcIndex].end == NodeOf(g, q);
      assert Joined(g, g.arcs[q.arcIndex].start, NodeOf(g, q));
    }
    assert ParentOk(g, StateOf(g, q), ParentOf(g, q));
  }

  lemma SuccessorsOk(g: Graph, ref: seq<int>, q: OraclePath, lo: nat, hi: nat)
    requires ItemOk(g, q) && ArcsOf(g, NodeOf(g, q), lo, hi)
    ensures ItemsOk(g, Successors(g, ref, q, lo, hi))
  {
    hide Entered;
    NodeEntered(g, q);
    forall p | p in Successors(g, ref, q, lo, hi) && !(q.refIndex < |ref| && p == DelItem(q))
      ensures ItemOk(g, p)
    {
      var i := ItemByArc(g, ref, q, lo, hi, p);
      assert g.arcs[i].start == NodeOf(g, q);
    }
  }

  /** The entry p goes along arc i. */
  ghost predicate ByArc(g: Graph, ref: seq<int>, q: OraclePath, p: OraclePath, i: nat)
    requires i < |g.arcs|
  {
    (q.refIndex < |ref| && p == SubItem(g, ref, q, i)) || p == InsItem(g, q, i) || p == EpsItem(g, q, i)
  }

  lemma ItemByArc(g: Graph, ref: seq<int>, q: OraclePath, lo: nat, hi: nat, p: OraclePath) returns (i: nat)
    requires lo <= hi <= |g.arcs| && p in Successors(g, ref, q, lo, hi) && !(q.refIndex < |ref| && p == DelItem(q))
    ensures lo <= i < hi && ByArc(g, ref, q, p, i)
  {
    if q.refIndex < |ref| && p in Subs(g, ref, q, lo, hi) {
      i :| lo <= i < hi && p == SubItem(g, ref, q, i);
    } else if p in Inss(g, q, lo, hi) {
      i :| lo <= i < hi && p == InsItem(g, q, i);
    } else {
      i :| lo <= i < hi && p == EpsItem(g, q, i);
    }
  }

  lemma NodeEntered(g: Graph, q: OraclePath)
    requires ItemOk(g, q)
    ensures Entered(g, NodeOf(g, q))
  {
    if q.arcIndex >= 0 {
      assert g.arcs[q.arcIndex].end == NodeOf(g, q);
    }
  }

  lemma ItemsStay(g: Graph, queue: seq<OraclePath>, k: nat, pushed: seq<OraclePath>)
    requires ItemsOk(g, queue) && k < |queue| && ItemsOk(g, pushed)
    ensures ItemsOk(g, Remove(queue, k)) && ItemsOk(g, Remove(queue, k) + pushed)
  {
    hide ItemOk, Remove;
    RemoveMembers(queue, k);
  }

  // ----- the search with its parents -----

  /** The invariant of the search together with what it has recorded. */
  ghost predicate SearchOk(g: Graph, ref: seq<int>, queue: seq<OraclePath>, dist: map<State, int>, parents: map<State, State>)
  {
    OracleInv(g, ref, queue, dist) && parents.Keys == dist.Keys && ItemsOk(g, queue) && ParentsOk(g, parents)
  }

  lemma SearchStart(g: Graph, ref: seq<int>)
    ensures SearchOk(g, ref, [OraclePath(0, 0.0, -1, 0, 0)], map[], map[])
  {
    InvStart(g, ref);
  }

  lemma SearchItem(g: Graph, ref: seq<int>, queue: seq<OraclePath>, dist: map<State, int>, parents: map<State, State>, k: nat)
    requires SearchOk(g, ref, queue, dist, parents) && Forwards(g) && k < |queue|
    ensures ItemOk(g, queue[k]) && parents.Keys == dist.Keys
    ensures NodeOf(g, queue[k]) <= g.finalNode && queue[k].refIndex <= |ref|
    ensures Entered(g, NodeOf(g, queue[k]))
  {
    hide Entered;
    assert queue[k] in queue;
    NodeEntered(g, queue[k]);
  }

  lemma SearchSkip(g: Graph, ref: seq<int>, queue: seq<OraclePath>, dist: map<State, int>, parents: map<State, State>, k: nat)
    requires SearchOk(g, ref, queue, dist, parents) && k < |queue| && ItemOk(g, queue[k]) && StateOf(g, queue[k]) in parents
    ensures SearchOk(g, ref, Remove(queue, k), dist, parents)
  {
    hide OracleInv, ItemsOk, ParentsOk, Remove;
    InvSkip(g, ref, queue, dist, k);
    NothingOk(g);
    ItemsStay(g, queue, k, []);
  }

  lemma NothingOk(g: Graph)
    ensures ItemsOk(g, [])
  {
  }

  lemma SearchExpand(g: Graph, ref: seq<int>, queue: seq<OraclePath>, dist: map<State, int>, parents: map<State, State>,
                     k: nat, lo: nat, hi: nat)
    requires SearchOk(g, ref, queue, dist, parents) && Forwards(g) && k < |queue| && ItemOk(g, queue[k])
    requires forall q :: q in queue ==> queue[k].wer <= q.wer
    requires StateOf(g, queue[k]) !in parents && StateOf(g, queue[k]) != (g.finalNode, |ref|)
    requires ArcsOf(g, NodeOf(g, queue[k]), lo, hi)
    ensures SearchOk(g, ref, Remove(queue, k) + Successors(g, ref, queue[k], lo, hi),
                     dist[StateOf(g, queue[k]) := queue[k].wer], parents[StateOf(g, queue[k]) := ParentOf(g, queue[k])])
  {
    hide OracleInv, ItemsOk, ParentsOk, Remove, Successors, ItemOk;
    InvStep(g, ref, queue, dist, k, lo, hi);
    SuccessorsOk(g, ref, queue[k], lo, hi);
    ItemsStay(g, queue, k, Successors(g, ref, queue[k], lo, hi));
    RecordedOk(g, parents, queue[k]);
  }

  lemma SearchFound(g: Graph, ref: seq<int>, queue: seq<OraclePath>, dist: map<State, int>, parents: map<State, State>, k: nat)
    requires SearchOk(g, ref, queue, dist, parents) && Forwards(g) && k < |queue| && ItemOk(g, queue[k])
    requires forall q :: q in queue ==> queue[k].wer <= q.wer
    requires StateOf(g, queue[k]) == (g.finalNode, |ref|)
    ensures IsOracleWER(g, ref, queue[k].wer)
    ensures ParentsOk(g, parents[StateOf(g, queue[k]) := ParentOf(g, queue[k])])
  {
    hide OracleInv, ItemsOk, ParentsOk, IsOracleWER, ItemOk;
    FirstCompleteIsOracle(g, ref, queue, dist, k);
    RecordedOk(g, parents, queue[k]);
  }

  // ----- reading back -----

  /** No arc lies before the arcs of node 0. */
  lemma StartArcsFirst(g: Graph, nodeArcs: seq<nat>)
    requires WellFormed(g) && Indexed(g, nodeArcs)
    ensures nodeArcs[0] == 0
  {
    assert HasArc(g, 0);
    assert ArcsOf(g, 0, nodeArcs[0], nodeArcs[1]);
    var i :| 0 <= i < |g.arcs| && g.arcs[i].start == 0;
    assert g.arcs[0].start == 0;
  }

  /** Where the scan for an arc into node starts, one lies ahead. */
  lemma ArcAhead(g: Graph, nodeArcs: seq<nat>, parents: map<State, State>, at: State, parent: State) returns (last: nat)
    requires WellFormed(g) && Indexed(g, nodeArcs) && ParentsOk(g, parents) && at != (0, 0) && Entered(g, at.0)
    requires parent == if at in parents then parents[at] else (0, 0)
    requires parent.0 != at.0 && at.0 <= g.finalNode
    ensures parent.0 <= g.finalNode && nodeArcs[parent.0] <= last < |g.arcs| && g.arcs[last].end == at.0
  {
    if at in parents {
      assert ParentOk(g, at, parents[at]);
      last :| 0 <= last < |g.arcs| && g.arcs[last].start == parent.0 && g.arcs[last].end == at.0;
      assert ArcsOf(g, parent.0, nodeArcs[parent.0], nodeArcs[parent.0 + 1]);
    } else {
      StartArcsFirst(g, nodeArcs);
      last :| 0 <= last < |g.arcs| && g.arcs[last].end == at.0;
    }
  }

  /** The parent lookup, where a missing entry reads as (0, 0). */
  lemma ParentBefore(g: Graph, parents: map<State, State>, at: State, parent: State)
    requires ParentsOk(g, parents) && at != (0, 0) && parent == if at in parents then parents[at] else (0, 0)
    ensures Before(parent, at) && Entered(g, parent.0)
  {
    assert at in parents ==> ParentOk(g, at, parents[at]);
  }

  /** Reads the path back, last arc first. */
  method ReadBack(g: Graph, nodeArcs: seq<nat>, parents: map<State, State>, end: State) returns (path: seq<nat>)
    requires WellFormed(g) && Indexed(g, nodeArcs) && ParentsOk(g, parents)
    requires Entered(g, end.0) && end.0 <= g.finalNode
    ensures forall k :: 0 <= k < |path| ==> path[k] < |g.arcs|
    ensures end.0 != 0 ==> path != [] && g.arcs[path[0]].end == end.0
  {
    hide WellFormed, ParentsOk, Entered, Indexed;
    path := [];
    var at, node := end, end.0;
    while at != (0, 0)
      invariant node == at.0 <= end.0 && Entered(g, at.0)
      invariant forall k :: 0 <= k < |path| ==> path[k] < |g.arcs|
      invariant node == end.0 ==> path == []
      invariant node == end.0 || (path != [] && g.arcs[path[0]].end == end.0)
      decreases at.0, at.1
    {
      var parent: State := if at in parents then parents[at] else (0, 0);
      ParentBefore(g, parents, at, parent);
      if parent.0 != node {
        ghost var last := ArcAhead(g, nodeArcs, parents, at, parent);
        IndexSize(g, nodeArcs);
        var arc := nodeArcs[parent.0];
        while g.arcs[arc].end != node
          invariant arc <= last
          decreases last - arc
        {
          arc := arc + 1;
        }
        path := path + [arc];
        node := parent.0;
      }
      at := parent;
    }
  }

  lemma IndexSize(g: Graph, nodeArcs: seq<nat>)
    requires Indexed(g, nodeArcs)
    ensures |nodeArcs| == g.finalNode + 2
  {
  }
}
