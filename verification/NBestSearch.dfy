/** The invariant of the forward A* search that lists the lightest paths in order. */
module NBestSearch {
  import opened Distinctness
  import opened LatticeGraph
  import opened OracleSearch

  /** A queue entry: weight so far plus the exact remaining score, and the node reached. */
  datatype Path = Path(score: real, node: nat)

  ghost predicate Complete(g: Graph, p: seq<nat>)
  {
    IsPath(g, p, 0, g.finalNode)
  }

  /** part is the partial path behind the queue entry q. */
  ghost predicate Backs(g: Graph, best: seq<ArcScore>, q: Path, part: seq<nat>)
  {
    && part != []
    && IsPath(g, part, 0, q.node)
    && q.node < |best|
    && q.score == Weight(g, part) + best[q.node].score
  }

  ghost predicate AllBacked(g: Graph, best: seq<ArcScore>, queue: seq<Path>, parts: seq<seq<nat>>)
  {
    && |queue| == |parts|
    && forall k :: 0 <= k < |queue| ==> Backs(g, best, queue[k], parts[k])
  }

  ghost predicate Antichain(parts: seq<seq<nat>>)
  {
    forall j, k :: 0 <= j < k < |parts| ==> Incomparable(parts[j], parts[k])
  }

  ghost predicate Apart(done: seq<seq<nat>>, parts: seq<seq<nat>>)
  {
    forall d, k :: 0 <= d < |done| && 0 <= k < |parts| ==> Incomparable(done[d], parts[k])
  }

  /** Path p is listed already or starts with a partial path that is still queued. */
  ghost predicate Pending(done: seq<seq<nat>>, parts: seq<seq<nat>>, p: seq<nat>)
  {
    p in done || exists part :: part in parts && part <= p
  }

  ghost predicate AllPending(g: Graph, done: seq<seq<nat>>, parts: seq<seq<nat>>)
  {
    forall p :: Complete(g, p) ==> Pending(done, parts, p)
  }

  ghost predicate Listed(g: Graph, scores: seq<real>, done: seq<seq<nat>>)
  {
    && |scores| == |done|
    && (forall d :: 0 <= d < |done| ==> Complete(g, done[d]) && scores[d] == Weight(g, done[d]))
    && Distinct(done)
    && (forall c, d :: 0 <= c < d < |scores| ==> scores[c] <= scores[d])
  }

  ghost predicate NBestInv(g: Graph, best: seq<ArcScore>, queue: seq<Path>, parts: seq<seq<nat>>,
                           scores: seq<real>, done: seq<seq<nat>>)
  {
    && AllBacked(g, best, queue, parts)
    && Antichain(parts)
    && Apart(done, parts)
    && AllPending(g, done, parts)
    && Listed(g, scores, done)
    && (forall d, k :: 0 <= d < |scores| && 0 <= k < |queue| ==> scores[d] <= queue[k].score)
  }

  // ----- expansion of a partial path -----

  /** The partial paths that extend part by one of the arcs lo .. hi. */
  ghost function Extensions(part: seq<nat>, lo: nat, hi: nat): seq<seq<nat>>
    requires lo <= hi
  {
    seq(hi - lo, k requires 0 <= k < hi - lo => part + [lo + k])
  }

  /** The queue entries for the same extensions. */
  function Children(g: Graph, best: seq<ArcScore>, base: real, lo: nat, hi: nat): seq<Path>
    requires lo <= hi <= |g.arcs|
    requires Forwards(g) && |best| == g.finalNode + 1
  {
    seq(hi - lo, k requires 0 <= k < hi - lo => Child(g, best, base, lo + k))
  }

  function Child(g: Graph, best: seq<ArcScore>, base: real, i: nat): Path
    requires i < |g.arcs| && g.arcs[i].end < |best|
  {
    Path(base + g.arcs[i].weight + best[g.arcs[i].end].score, g.arcs[i].end)
  }

  lemma ChildBacked(g: Graph, best: seq<ArcScore>, part: seq<nat>, node: nat, i: nat)
    requires Bellman(g, best) && IsPath(g, part, 0, node) && i < |g.arcs| && g.arcs[i].start == node
    ensures Backs(g, best, Child(g, best, Weight(g, part), i), part + [i])
    ensures Weight(g, part) + best[node].score <= Child(g, best, Weight(g, part), i).score
  {
    PathSnoc(g, part, 0, i);
  }

  lemma PrefixOfSnoc<T>(p: seq<T>, q: seq<T>, x: T)
    ensures p + [x] <= q ==> p <= q
    ensures q <= p + [x] ==> q <= p || p <= q
  {
    var r := p + [x];
    assert p <= r;
    if q <= r {
      assert q == r[..|q|];
      if |q| <= |p| {
        assert q == p[..|q|];
      }
    }
  }

  lemma IncomparableExtension<T>(p: seq<T>, q: seq<T>, x: T)
    requires Incomparable(p, q)
    ensures Incomparable(p + [x], q) && Incomparable(q, p + [x])
  {
    PrefixOfSnoc(p, q, x);
  }

  lemma AntichainMembers(parts: seq<seq<nat>>, k: nat)
    requires Antichain(parts) && k < |parts|
    ensures Antichain(Remove(parts, k))
    ensures forall j :: 0 <= j < |parts| - 1 ==> Incomparable(parts[k], Remove(parts, k)[j])
  {
  }

  lemma AntichainExpand(parts: seq<seq<nat>>, k: nat, lo: nat, hi: nat)
    requires Antichain(parts) && k < |parts| && lo <= hi
    ensures Antichain(Remove(parts, k) + Extensions(parts[k], lo, hi))
  {
    AntichainMembers(parts, k);
    var rest, ext := Remove(parts, k), Extensions(parts[k], lo, hi);
    forall i, j | 0 <= i < |rest| && 0 <= j < |ext|
      ensures Incomparable(rest[i], ext[j])
    {
      IncomparableExtension(parts[k], rest[i], lo + j);
    }
    forall i, j | 0 <= i < j < |ext|
      ensures Incomparable(ext[i], ext[j])
    {
      assert ext[i][|parts[k]|] == lo + i && ext[j][|parts[k]|] == lo + j;
    }
  }

  lemma ApartExpand(done: seq<seq<nat>>, parts: seq<seq<nat>>, k: nat, lo: nat, hi: nat)
    requires Apart(done, parts) && k < |parts| && lo <= hi
    ensures Apart(done, Remove(parts, k) + Extensions(parts[k], lo, hi))
  {
    var rest, ext := Remove(parts, k), Extensions(parts[k], lo, hi);
    forall d, j | 0 <= d < |done| && 0 <= j < |ext|
      ensures Incomparable(done[d], ext[j])
    {
      IncomparableExtension(parts[k], done[d], lo + j);
    }
  }

  /** A path ends at one node only. */
  lemma {:induction false} PathEnd(g: Graph, p: seq<nat>, a: nat, b: nat, c: nat)
    requires IsPath(g, p, a, b) && IsPath(g, p, a, c)
    ensures b == c
  {
    if p != [] {
      PathEnd(g, p[1..], g.arcs[p[0]].end, b, c);
    }
  }

  lemma PendingExpand(g: Graph, done: seq<seq<nat>>, parts: seq<seq<nat>>, k: nat, node: nat,
                      lo: nat, hi: nat, p: seq<nat>)
    requires k < |parts| && lo <= hi <= |g.arcs|
    requires parts[k] != [] && IsPath(g, parts[k], 0, node) && node != g.finalNode
    requires forall i :: 0 <= i < |g.arcs| && g.arcs[i].start == node ==> lo <= i < hi
    requires Complete(g, p) && Pending(done, parts, p)
    ensures Pending(done, Remove(parts, k) + Extensions(parts[k], lo, hi), p)
  {
    var part := parts[k];
    var rest, ext := Remove(parts, k), Extensions(part, lo, hi);
    RemoveMembers(parts, k);
    if p !in done {
      var q :| q in parts && q <= p;
      if q == part {
        var mid := PathSplit(g, p, |part|, 0, g.finalNode);
        assert part == p[..|part|];
        PathEnd(g, part, 0, mid, node);
        var i := p[|part|];
        assert ext[i - lo] == part + [i] <= p;
        assert part + [i] in rest + ext;
      } else {
        assert q in rest + ext;
      }
    }
  }

  lemma BackedRemove(g: Graph, best: seq<ArcScore>, queue: seq<Path>, parts: seq<seq<nat>>, k: nat)
    requires AllBacked(g, best, queue, parts) && k < |queue|
    ensures AllBacked(g, best, Remove(queue, k), Remove(parts, k))
  {
    forall j | 0 <= j < |queue| - 1
      ensures Backs(g, best, Remove(queue, k)[j], Remove(parts, k)[j])
    {
      var j' := if j < k then j else j + 1;
      assert Backs(g, best, queue[j'], parts[j']);
    }
  }

  lemma BackedChildren(g: Graph, best: seq<ArcScore>, part: seq<nat>, node: nat, lo: nat, hi: nat)
    requires Bellman(g, best) && node < |best| && IsPath(g, part, 0, node) && lo <= hi <= |g.arcs|
    requires forall i :: lo <= i < hi ==> g.arcs[i].start == node
    requires Forwards(g) && |best| == g.finalNode + 1
    ensures AllBacked(g, best, Children(g, best, Weight(g, part), lo, hi), Extensions(part, lo, hi))
    ensures forall j :: 0 <= j < hi - lo ==>
              Weight(g, part) + best[node].score <= Children(g, best, Weight(g, part), lo, hi)[j].score
  {
    forall j | 0 <= j < hi - lo
      ensures Backs(g, best, Children(g, best, Weight(g, part), lo, hi)[j], Extensions(part, lo, hi)[j])
      ensures Weight(g, part) + best[node].score <= Children(g, best, Weight(g, part), lo, hi)[j].score
    {
      ChildBacked(g, best, part, node, lo + j);
    }
  }

  lemma BackedConcat(g: Graph, best: seq<ArcScore>, queue: seq<Path>, parts: seq<seq<nat>>,
                     queue': seq<Path>, parts': seq<seq<nat>>)
    requires AllBacked(g, best, queue, parts) && AllBacked(g, best, queue', parts')
    ensures AllBacked(g, best, queue + queue', parts + parts')
  {
    forall j | 0 <= j < |queue + queue'|
      ensures Backs(g, best, (queue + queue')[j], (parts + parts')[j])
    {
      if j < |queue| {
        assert Backs(g, best, queue[j], parts[j]);
      } else {
        assert Backs(g, best, queue'[j - |queue|], parts'[j - |queue|]);
      }
    }
  }

  /** Replacing a queued partial path by all its one-arc extensions keeps the invariant. */
  lemma NBestExpand(g: Graph, best: seq<ArcScore>, queue: seq<Path>, parts: seq<seq<nat>>,
                    scores: seq<real>, done: seq<seq<nat>>, k: nat, lo: nat, hi: nat)
    requires Bellman(g, best) && NBestInv(g, best, queue, parts, scores, done)
    requires k < |queue| && queue[k].node != g.finalNode && lo <= hi <= |g.arcs|
    requires queue[k].node < |best|
    requires forall i :: 0 <= i < |g.arcs| ==> (lo <= i < hi <==> g.arcs[i].start == queue[k].node)
    requires Forwards(g) && |best| == g.finalNode + 1
    ensures var base := queue[k].score - best[queue[k].node].score;
            NBestInv(g, best, Remove(queue, k) + Children(g, best, base, lo, hi),
                     Remove(parts, k) + Extensions(parts[k], lo, hi), scores, done)
  {
    var part := parts[k];
    assert Backs(g, best, queue[k], part);
    AntichainExpand(parts, k, lo, hi);
    ApartExpand(done, parts, k, lo, hi);
    BackedRemove(g, best, queue, parts, k);
    BackedChildren(g, best, part, queue[k].node, lo, hi);
    BackedConcat(g, best, Remove(queue, k), Remove(parts, k),
                 Children(g, best, Weight(g, part), lo, hi), Extensions(part, lo, hi));
    forall p | Complete(g, p)
      ensures Pending(done, Remove(parts, k) + Extensions(part, lo, hi), p)
    {
      PendingExpand(g, done, parts, k, queue[k].node, lo, hi, p);
    }
  }

  /** No complete path that is not listed is lighter than a least queue entry. */
  lemma UnlistedIsHeavier(g: Graph, best: seq<ArcScore>, queue: seq<Path>, parts: seq<seq<nat>>,
                          done: seq<seq<nat>>, m: real, p: seq<nat>)
    requires Bellman(g, best) && AllBacked(g, best, queue, parts) && Pending(done, parts, p)
    requires forall k :: 0 <= k < |queue| ==> m <= queue[k].score
    requires Complete(g, p) && p !in done
    ensures queue != [] && m <= Weight(g, p)
  {
    var part :| part in parts && part <= p;
    var k :| 0 <= k < |parts| && parts[k] == part;
    assert Backs(g, best, queue[k], part);
    var mid := PathSplit(g, p, |part|, 0, g.finalNode);
    assert part == p[..|part|] && p == part + p[|part|..];
    PathEnd(g, part, 0, mid, queue[k].node);
    WeightConcat(g, part, p[|part|..]);
    ScoreIsLowerBound(g, best, queue[k].node, p[|part|..]);
  }

  lemma ListedEmit(g: Graph, scores: seq<real>, done: seq<seq<nat>>, part: seq<nat>, score: real)
    requires Listed(g, scores, done) && Complete(g, part) && score == Weight(g, part)
    requires part !in done && forall d :: 0 <= d < |scores| ==> scores[d] <= score
    ensures Listed(g, scores + [score], done + [part])
  {
  }

  /** A complete path has no proper complete extension. */
  lemma CompleteIsMaximal(g: Graph, part: seq<nat>, p: seq<nat>)
    requires WellFormed(g) && part != [] && Complete(g, part) && Complete(g, p) && part <= p
    ensures part == p
  {
    var mid := PathSplit(g, p, |part|, 0, g.finalNode);
    assert part == p[..|part|];
    PathEnd(g, part, 0, mid, g.finalNode);
    PathForward(g, p[|part|..], mid, g.finalNode);
  }

  lemma PendingEmit(g: Graph, done: seq<seq<nat>>, parts: seq<seq<nat>>, k: nat, p: seq<nat>)
    requires WellFormed(g) && k < |parts| && Complete(g, parts[k]) && parts[k] != []
    requires Complete(g, p) && Pending(done, parts, p)
    ensures Pending(done + [parts[k]], Remove(parts, k), p)
  {
    RemoveMembers(parts, k);
    if p !in done {
      var part :| part in parts && part <= p;
      if part == parts[k] {
        CompleteIsMaximal(g, part, p);
      } else {
        assert part in Remove(parts, k);
      }
    }
  }

  lemma ApartEmit(done: seq<seq<nat>>, parts: seq<seq<nat>>, k: nat)
    requires Apart(done, parts) && Antichain(parts) && k < |parts|
    ensures Apart(done + [parts[k]], Remove(parts, k))
    ensures parts[k] !in done
  {
    AntichainMembers(parts, k);
    assert forall d :: 0 <= d < |done| ==> Incomparable(done[d], parts[k]);
  }

  lemma AllPendingEmit(g: Graph, done: seq<seq<nat>>, parts: seq<seq<nat>>, k: nat)
    requires WellFormed(g) && k < |parts| && Complete(g, parts[k]) && parts[k] != []
    requires AllPending(g, done, parts)
    ensures AllPending(g, done + [parts[k]], Remove(parts, k))
  {
    forall p | Complete(g, p)
      ensures Pending(done + [parts[k]], Remove(parts, k), p)
    {
      PendingEmit(g, done, parts, k, p);
    }
  }

  lemma AllUnlistedHeavier(g: Graph, best: seq<ArcScore>, queue: seq<Path>, parts: seq<seq<nat>>,
                           done: seq<seq<nat>>, m: real)
    requires Bellman(g, best) && AllBacked(g, best, queue, parts) && AllPending(g, done, parts)
    requires forall k :: 0 <= k < |queue| ==> m <= queue[k].score
    ensures forall p :: Complete(g, p) && p !in done ==> queue != [] && m <= Weight(g, p)
  {
    forall p | Complete(g, p) && p !in done
      ensures queue != [] && m <= Weight(g, p)
    {
      UnlistedIsHeavier(g, best, queue, parts, done, m, p);
    }
  }

  /** Popping a complete path that is least in the queue lists it next. */
  lemma NBestEmit(g: Graph, best: seq<ArcScore>, queue: seq<Path>, parts: seq<seq<nat>>,
                  scores: seq<real>, done: seq<seq<nat>>, k: nat)
    requires WellFormed(g) && Bellman(g, best) && NBestInv(g, best, queue, parts, scores, done)
    requires k < |queue| && queue[k].node == g.finalNode
    requires forall j :: 0 <= j < |queue| ==> queue[k].score <= queue[j].score
    ensures NBestInv(g, best, Remove(queue, k), Remove(parts, k), scores + [queue[k].score], done + [parts[k]])
  {
    assert Backs(g, best, queue[k], parts[k]);
    ApartEmit(done, parts, k);
    AntichainMembers(parts, k);
    BackedRemove(g, best, queue, parts, k);
    ListedEmit(g, scores, done, parts[k], queue[k].score);
    AllPendingEmit(g, done, parts, k);
  }

  // ----- termination: the unfolding of the graph below a node is finite -----

  ghost function TreeSize(g: Graph, n: nat): nat
    requires Forwards(g) && n <= g.finalNode
    decreases g.finalNode - n, |g.arcs| + 1
  {
    1 + SubtreeSizes(g, n, |g.arcs|)
  }

  /** Total size below the arcs [0, k) that leave node n. */
  ghost function SubtreeSizes(g: Graph, n: nat, k: nat): nat
    requires Forwards(g) && n <= g.finalNode && k <= |g.arcs|
    decreases g.finalNode - n, k
  {
    if k == 0 then 0
    else SubtreeSizes(g, n, k - 1) + if g.arcs[k - 1].start == n then TreeSize(g, g.arcs[k - 1].end) else 0
  }

  ghost predicate NodesOk(g: Graph, queue: seq<Path>)
  {
    forall k :: 0 <= k < |queue| ==> queue[k].node <= g.finalNode
  }

  ghost function QueueSize(g: Graph, queue: seq<Path>): nat
    requires Forwards(g) && NodesOk(g, queue)
  {
    if queue == [] then 0
    else QueueSize(g, queue[..|queue| - 1]) + TreeSize(g, queue[|queue| - 1].node)
  }

  lemma {:induction false} QueueSizeConcat(g: Graph, a: seq<Path>, b: seq<Path>)
    requires Forwards(g) && NodesOk(g, a) && NodesOk(g, b)
    ensures QueueSize(g, a + b) == QueueSize(g, a) + QueueSize(g, b)
  {
    if b == [] {
      assert a + b == a;
    } else {
      QueueSizeConcat(g, a, b[..|b| - 1]);
      assert (a + b)[..|a + b| - 1] == a + b[..|b| - 1];
    }
  }

  lemma QueueSizeOne(g: Graph, q: Path)
    requires Forwards(g) && q.node <= g.finalNode
    ensures QueueSize(g, [q]) == TreeSize(g, q.node)
  {
    assert [q][..0] == [];
  }

  lemma QueueSizeRemove(g: Graph, queue: seq<Path>, k: nat)
    requires Forwards(g) && NodesOk(g, queue) && k < |queue|
    ensures NodesOk(g, Remove(queue, k))
    ensures QueueSize(g, queue) == QueueSize(g, Remove(queue, k)) + TreeSize(g, queue[k].node)
  {
    hide QueueSize, TreeSize, Forwards;
    var a, one, b := queue[..k], [queue[k]], queue[k + 1..];
    QueueSizeOne(g, queue[k]);
    QueueSizeConcat(g, a, b);
    QueueSizeConcat(g, one, b);
    QueueSizeConcat(g, a, one + b);
    assert queue == a + (one + b) && Remove(queue, k) == a + b;
  }

  lemma {:induction false} ChildrenSize(g: Graph, best: seq<ArcScore>, base: real, n: nat, lo: nat, k: nat)
    requires Forwards(g) && n <= g.finalNode && k <= |g.arcs| && lo <= |g.arcs|
    requires Forwards(g) && |best| == g.finalNode + 1
    requires forall i :: 0 <= i < lo ==> g.arcs[i].start != n
    requires forall i :: lo <= i < k ==> g.arcs[i].start == n
    ensures NodesOk(g, Children(g, best, base, lo, if k < lo then lo else k))
    ensures QueueSize(g, Children(g, best, base, lo, if k < lo then lo else k)) == SubtreeSizes(g, n, k)
  {
    if k > 0 {
      ChildrenSize(g, best, base, n, lo, k - 1);
      if k > lo {
        var c := Children(g, best, base, lo, k);
        assert c == Children(g, best, base, lo, k - 1) + [Child(g, best, base, k - 1)];
        assert c[..|c| - 1] == Children(g, best, base, lo, k - 1);
      }
    }
  }

  lemma {:induction false} NoMoreChildren(g: Graph, n: nat, k: nat)
    requires Forwards(g) && n <= g.finalNode && k <= |g.arcs|
    requires forall i :: k <= i < |g.arcs| ==> g.arcs[i].start != n
    ensures SubtreeSizes(g, n, |g.arcs|) == SubtreeSizes(g, n, k)
    decreases |g.arcs| - k
  {
    if k < |g.arcs| {
      NoMoreChildren(g, n, k + 1);
    }
  }

  /** Each expansion takes one node off the unfolding. */
  lemma ExpandShrinks(g: Graph, best: seq<ArcScore>, base: real, queue: seq<Path>, k: nat, lo: nat, hi: nat)
    requires Forwards(g) && NodesOk(g, queue) && k < |queue| && lo <= hi <= |g.arcs|
    requires Forwards(g) && |best| == g.finalNode + 1
    requires forall i :: 0 <= i < |g.arcs| ==> (lo <= i < hi <==> g.arcs[i].start == queue[k].node)
    ensures NodesOk(g, Remove(queue, k) + Children(g, best, base, lo, hi))
    ensures QueueSize(g, Remove(queue, k) + Children(g, best, base, lo, hi)) < QueueSize(g, queue)
  {
    QueueSizeRemove(g, queue, k);
    ChildrenSize(g, best, base, queue[k].node, lo, hi);
    NoMoreChildren(g, queue[k].node, hi);
    QueueSizeConcat(g, Remove(queue, k), Children(g, best, base, lo, hi));
  }

  // ----- the steps of the search loop -----

  lemma FirstArcPending(g: Graph, lo: nat, hi: nat, p: seq<nat>)
    requires WellFormed(g) && ArcsOf(g, 0, lo, hi) && Complete(g, p)
    ensures Pending([], Extensions([], lo, hi), p)
  {
    var first := Extensions([], lo, hi)[p[0] - lo];
    assert first == [] + [p[0]] == [p[0]] <= p;
    assert first in Extensions([], lo, hi);
  }

  lemma FirstArcsAntichain(lo: nat, hi: nat)
    requires lo <= hi
    ensures Antichain(Extensions([], lo, hi))
  {
    forall i, j | 0 <= i < j < hi - lo
      ensures Incomparable(Extensions([], lo, hi)[i], Extensions([], lo, hi)[j])
    {
      var p, q := Extensions([], lo, hi)[i], Extensions([], lo, hi)[j];
      assert p == [] + [lo + i] && q == [] + [lo + j];
      assert p[0] != q[0];
    }
  }

  lemma NBestStart(g: Graph, best: seq<ArcScore>, lo: nat, hi: nat)
    requires WellFormed(g) && Bellman(g, best) && ArcsOf(g, 0, lo, hi)
    ensures NBestInv(g, best, Children(g, best, 0.0, lo, hi), Extensions([], lo, hi), [], [])
    ensures NodesOk(g, Children(g, best, 0.0, lo, hi))
  {
    assert IsPath(g, [], 0, 0) && Weight(g, []) == 0.0;
    BackedChildren(g, best, [], 0, lo, hi);
    FirstArcsAntichain(lo, hi);
    forall p | Complete(g, p)
      ensures Pending([], Extensions([], lo, hi), p)
    {
      FirstArcPending(g, lo, hi, p);
    }
  }

  /** The scores listed so far are the n lightest for their own number. */
  lemma EmitStep(g: Graph, best: seq<ArcScore>, queue: seq<Path>, parts: seq<seq<nat>>,
                 scores: seq<real>, done: seq<seq<nat>>, k: nat)
    requires WellFormed(g) && Bellman(g, best) && NBestInv(g, best, queue, parts, scores, done)
    requires NodesOk(g, queue) && k < |queue| && queue[k].node == g.finalNode
    requires forall j :: 0 <= j < |queue| ==> queue[k].score <= queue[j].score
    ensures NBestInv(g, best, Remove(queue, k), Remove(parts, k), scores + [queue[k].score], done + [parts[k]])
    ensures IsNBestScores(g, |scores| + 1, scores + [queue[k].score])
    ensures NodesOk(g, Remove(queue, k)) && QueueSize(g, Remove(queue, k)) < QueueSize(g, queue)
  {
    NBestEmit(g, best, queue, parts, scores, done, k);
    AllUnlistedHeavier(g, best, queue, parts, done, queue[k].score);
    QueueSizeRemove(g, queue, k);
    assert IsNBest(g, |scores| + 1, scores + [queue[k].score], done + [parts[k]]);
  }

  lemma ExpandStep(g: Graph, best: seq<ArcScore>, queue: seq<Path>, parts: seq<seq<nat>>,
                   scores: seq<real>, done: seq<seq<nat>>, k: nat, lo: nat, hi: nat)
    requires WellFormed(g) && Bellman(g, best) && NBestInv(g, best, queue, parts, scores, done)
    requires NodesOk(g, queue) && k < |queue| && queue[k].node != g.finalNode
    requires ArcsOf(g, queue[k].node, lo, hi)
    ensures lo <= hi <= |g.arcs| && queue[k].node < |best| && Forwards(g)
    ensures var base := queue[k].score - best[queue[k].node].score;
            var queue' := Remove(queue, k) + Children(g, best, base, lo, hi);
            && NBestInv(g, best, queue', Remove(parts, k) + Extensions(parts[k], lo, hi), scores, done)
            && NodesOk(g, queue') && QueueSize(g, queue') < QueueSize(g, queue)
  {
    hide NBestInv, QueueSize, WellFormed;
    NBestExpand(g, best, queue, parts, scores, done, k, lo, hi);
    ExpandShrinks(g, best, queue[k].score - best[queue[k].node].score, queue, k, lo, hi);
  }

  lemma SameLength(g: Graph, best: seq<ArcScore>, queue: seq<Path>, parts: seq<seq<nat>>,
                   scores: seq<real>, done: seq<seq<nat>>)
    requires NBestInv(g, best, queue, parts, scores, done)
    ensures |queue| == |parts| && |scores| == |done|
  {
  }

  /** With an empty queue every complete path is listed. */
  lemma NBestDone(g: Graph, best: seq<ArcScore>, parts: seq<seq<nat>>, scores: seq<real>, done: seq<seq<nat>>,
                  limit: nat)
    requires Bellman(g, best) && NBestInv(g, best, [], parts, scores, done) && |scores| <= limit
    ensures IsNBestScores(g, limit, scores)
  {
    AllUnlistedHeavier(g, best, [], parts, done, 0.0);
    assert IsNBest(g, limit, scores, done);
  }
}
