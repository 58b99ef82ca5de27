/** The lattice object and its searches. */
module Lattice {
  import opened Sequences
  import opened LatticeGraph
  import opened LatticeEntries
  import opened EditDistance
  import opened LatticeOracle
  import opened OracleSearch
  import opened OracleBacktrace
  import opened NBestSearch
  import opened LatticeFlow
  import opened LatticeSweeps
  import Sorting

  /** Size of the unsigned counter of the n-best search. */
  const WRAP: nat := 0x1_0000_0000_0000_0000

  /** p is a complete path and none is lighter. */
  ghost predicate IsLightest(g: Graph, p: seq<nat>)
  {
    && IsPath(g, p, 0, g.finalNode)
    && forall q :: IsPath(g, q, 0, g.finalNode) ==> Weight(g, p) <= Weight(g, q)
  }

  /** Skipped words and the words of arcs into the final node are word 0. */
  ghost predicate OnlyZeroDropped(g: Graph, skip: int -> bool)
  {
    && (forall i :: 0 <= i < |g.arcs| && skip(g.arcs[i].word) ==> g.arcs[i].word == 0)
    && (forall i :: 0 <= i < |g.arcs| && g.arcs[i].end == g.finalNode ==> g.arcs[i].word == 0)
  }

  predicate ArcBefore(a: Arc, b: Arc)
  {
    a.start < b.start || (a.start == b.start && a.end <= b.end)
  }

  function Close(a: Arc, final: nat): Arc
  {
    if a.end == NO_NODE then a.(end := final) else a
  }

  /** The arcs with the placeholder ends replaced by the final node. */
  function Closed(arcs: seq<Arc>, final: nat): (r: seq<Arc>)
    ensures |r| == |arcs| && forall i :: 0 <= i < |arcs| ==> r[i] == Close(arcs[i], final)
  {
    seq(|arcs|, i requires 0 <= i < |arcs| => Close(arcs[i], final))
  }

  lemma SortedArcs(read: seq<Arc>)
    ensures Sorted(Sorting.Sort(read, ArcBefore))
  {
    Sorting.SortIsSorted(read, ArcBefore);
  }

  method ReadEntries(entries: seq<Entry>) returns (r: LoadResult, read: seq<Arc>)
    ensures r == FirstError(entries)
    ensures r == Loaded ==> read == ArcsOfEntries(entries)
  {
    read := [];
    for i := 0 to |entries|
      invariant read == ArcsOfEntries(entries[..i])
      invariant FirstError(entries) == FirstError(entries[i..])
    {
      assert entries[..i + 1][..i] == entries[..i];
      match entries[i]
      case Transition(s, e, w, x) =>
        if s >= e { return Failed(NotTopological), read; }
        if w == -1 { return Failed(OutOfVocabulary), read; }
        read := read + [Arc(s, e, w, x)];
      case Final(n, x) =>
        read := read + [Arc(n, NO_NODE, 0, x)];
      case Potential =>
    }
    assert entries[..|entries|] == entries;
    r := Loaded;
  }

  /** Where each start node's arcs begin, and the placeholder ends replaced. */
  method IndexArcs(sorted: seq<Arc>, final: nat) returns (arcs: seq<Arc>, nodeArcs: seq<nat>)
    requires forall i :: 0 <= i < |sorted| ==> sorted[i].start < final
    requires Sorted(sorted)
    ensures arcs == Closed(sorted, final)
    ensures FirstArcs(Graph(final, arcs), nodeArcs)
  {
    var first := new nat[final + 2];
    arcs := sorted;
    var node: int := -1;
    for i := 0 to |sorted|
      invariant |arcs| == |sorted|
      invariant forall k :: 0 <= k < i ==> arcs[k] == Close(sorted[k], final)
      invariant forall k :: i <= k < |sorted| ==> arcs[k] == sorted[k]
      invariant i == 0 ==> node == -1
      invariant i > 0 ==> node == sorted[i - 1].start
      invariant forall k :: 0 <= k < i ==> FirstBefore(Graph(final, sorted), first[..], k)
    {
      ghost var was := first[..];
      if arcs[i].start != node {
        node := arcs[i].start;
        first[node] := i;
      } else {
        assert FirstBefore(Graph(final, sorted), was, i - 1);
      }
      forall k | 0 <= k < i + 1
        ensures FirstBefore(Graph(final, sorted), first[..], k)
      {
        if k < i { assert FirstBefore(Graph(final, sorted), was, k); }
      }
      if arcs[i].end == NO_NODE {
        arcs := arcs[i := arcs[i].(end := final)];
      }
    }
    ghost var found := first[..];
    first[final] := |arcs|;
    first[final + 1] := |arcs|;
    nodeArcs := first[..];
    forall i | 0 <= i < |arcs|
      ensures FirstBefore(Graph(final, arcs), nodeArcs, i)
    {
      assert FirstBefore(Graph(final, sorted), found, i);
    }
  }

  /** The walk along the best arcs; the word of the last arc is left out. */
  method FollowBestArcs(g: Graph, best: seq<ArcScore>, skip: int -> bool) returns (bestPath: seq<int>)
    requires g.finalNode > 0 && Bellman(g, best)
    ensures bestPath == Decoded(g, BestPath(g, best, 0), skip)
  {
    ghost var walked: seq<nat> := [];
    var node: nat := 0;
    assert WalkedTo(g, best, [], 0, skip, []);
    hide Bellman, BestPath, WalkedTo, Decoded, IsPath, Spoken;
    BestPathStep(g, best, 0);
    var bestArc := best[0].arc;
    bestPath := [];
    while g.arcs[bestArc].end != g.finalNode
      invariant node < g.finalNode && bestArc == best[node].arc && 0 <= bestArc < |g.arcs|
      invariant g.arcs[bestArc].start == node
      invariant WalkedTo(g, best, walked, node, skip, bestPath)
      decreases g.finalNode - node
    {
      var word := g.arcs[bestArc].word;
      WalkStep(g, best, walked, node, skip, bestPath);
      if !skip(word) {
        bestPath := bestPath + [word];
      }
      BestPathStep(g, best, node);
      walked := walked + [bestArc];
      node := g.arcs[bestArc].end;
      BestPathStep(g, best, node);
      bestArc := best[node].arc;
    }
    WalkEnd(g, best, walked, node, skip, bestPath);
  }

  /** walked is the best path as far as node, words what decoding has kept of it. */
  ghost predicate WalkedTo(g: Graph, best: seq<ArcScore>, walked: seq<nat>, node: nat, skip: int -> bool, words: seq<int>)
    requires Bellman(g, best)
  {
    && node <= g.finalNode
    && InRange(g, walked)
    && BestPath(g, best, 0) == walked + BestPath(g, best, node)
    && words == Spoken(g, walked, skip)
  }

  lemma WalkStep(g: Graph, best: seq<ArcScore>, walked: seq<nat>, node: nat, skip: int -> bool, words: seq<int>)
    requires Bellman(g, best) && node < g.finalNode && WalkedTo(g, best, walked, node, skip, words)
    ensures 0 <= best[node].arc < |g.arcs|
    ensures var a := g.arcs[best[node].arc];
            WalkedTo(g, best, walked + [best[node].arc], a.end, skip, words + (if skip(a.word) then [] else [a.word]))
  {
    BestPathStep(g, best, node);
    hide Bellman, BestPath, Spoken, IsPath;
    var i, rest := best[node].arc, BestPath(g, best, g.arcs[best[node].arc].end);
    SpokenSnoc(g, walked, i, skip);
    assert walked + ([i] + rest) == walked + [i] + rest;
  }

  lemma WalkEnd(g: Graph, best: seq<ArcScore>, walked: seq<nat>, node: nat, skip: int -> bool, words: seq<int>)
    requires Bellman(g, best) && node < g.finalNode && WalkedTo(g, best, walked, node, skip, words)
    requires 0 <= best[node].arc < |g.arcs| && g.arcs[best[node].arc].end == g.finalNode
    ensures words == Decoded(g, BestPath(g, best, 0), skip)
  {
    BestPathStep(g, best, node);
    BestPathStep(g, best, g.finalNode);
    var p := BestPath(g, best, 0);
    assert p == walked + [best[node].arc];
    assert Init(p) == walked;
  }

  lemma BestPathStep(g: Graph, best: seq<ArcScore>, n: nat)
    requires Bellman(g, best) && n <= g.finalNode
    ensures |best| == g.finalNode + 1 && Forwards(g)
    ensures n == g.finalNode ==> BestPath(g, best, n) == []
    ensures n < g.finalNode ==>
              && 0 <= best[n].arc < |g.arcs|
              && n == g.arcs[best[n].arc].start < g.arcs[best[n].arc].end <= g.finalNode
              && BestPath(g, best, n) == [best[n].arc] + BestPath(g, best, g.arcs[best[n].arc].end)
  {
    if n < g.finalNode {
      assert IsBestArc(g, best, n, best[n].arc);
    }
  }

  lemma SpokenSnoc(g: Graph, p: seq<nat>, i: nat, skip: int -> bool)
    requires InRange(g, p) && i < |g.arcs|
    ensures Spoken(g, p + [i], skip) == Spoken(g, p, skip) + (if skip(g.arcs[i].word) then [] else [g.arcs[i].word])
  {
    assert Init(p + [i]) == p && Last(p + [i]) == i;
  }

  /** The loaded graph: the arcs read, sorted by start node, the final states joined in the
      node after the last start node, and the arcs indexed. */
  ghost predicate Arranged(read: seq<Arc>, g: Graph, nodeArcs: seq<nat>)
  {
    && (exists sorted :: multiset(sorted) == multiset(read) && g.arcs == Closed(sorted, g.finalNode))
    && Sorted(g.arcs)
    && g.arcs != [] && g.finalNode == g.arcs[|g.arcs| - 1].start + 1
    && FirstArcs(g, nodeArcs)
  }

  ghost predicate NoDeadEnd(g: Graph)
  {
    forall n: nat :: n < g.finalNode ==> HasArc(g, n)
  }

  /** Every arc read is in the arranged graph with its start, word and weight, and leads where it
      did, or to the final node when it led to no node yet. */
  lemma ArrangedKeeps(read: seq<Arc>, g: Graph, nodeArcs: seq<nat>, a: Arc)
    requires Arranged(read, g, nodeArcs) && a in read
    ensures |g.arcs| == |read|
    ensures Arc(a.start, if a.end == NO_NODE then g.finalNode else a.end, a.word, a.weight) in g.arcs
  {
    var sorted :| multiset(sorted) == multiset(read) && g.arcs == Closed(sorted, g.finalNode);
    assert a in multiset(sorted);
    var i :| 0 <= i < |sorted| && sorted[i] == a;
    assert g.arcs[i] == Close(a, g.finalNode);
    assert |multiset(sorted)| == |sorted| && |multiset(read)| == |read|;
  }

  /** An arranged graph is usable when arcs go forward and no node is a dead end. */
  lemma ArrangedIsUsable(read: seq<Arc>, g: Graph, nodeArcs: seq<nat>)
    requires Arranged(read, g, nodeArcs) && NoDeadEnd(g) && Forwards(g)
    ensures WellFormed(g) && Indexed(g, nodeArcs)
  {
    FirstArcsIndex(g, nodeArcs);
  }

  lemma ClosedSorted(sorted: seq<Arc>, final: nat)
    requires Sorted(sorted)
    ensures Sorted(Closed(sorted, final))
  {
  }

  method ArrangeArcs(read: seq<Arc>) returns (g: Graph, nodeArcs: seq<nat>)
    requires read != []
    ensures Arranged(read, g, nodeArcs)
  {
    hide FirstArcs;
    var sorted := Sorting.Sort(read, ArcBefore);
    SortedArcs(read);
    var final := sorted[|sorted| - 1].start + 1;
    var arcs;
    arcs, nodeArcs := IndexArcs(sorted, final);
    ClosedSorted(sorted, final);
    g := Graph(final, arcs);
    assert multiset(sorted) == multiset(read) && g.arcs == Closed(sorted, g.finalNode);
  }

  /** The pop of the priority queues: some entry no other entry precedes. */
  method TopOracle(queue: seq<OraclePath>) returns (k: nat)
    requires queue != []
    ensures k < |queue| && forall q :: q in queue ==> AtLeastAsGood(queue[k], q)
  {
    k := 0;
    for i := 1 to |queue|
      invariant k < i
      invariant forall j :: 0 <= j < i ==> AtLeastAsGood(queue[k], queue[j])
    {
      if !AtLeastAsGood(queue[k], queue[i]) { k := i; }
    }
  }

  method TopPath(queue: seq<Path>) returns (k: nat)
    requires queue != []
    ensures k < |queue| && forall j :: 0 <= j < |queue| ==> queue[k].score <= queue[j].score
  {
    k := 0;
    for i := 1 to |queue|
      invariant k < i
      invariant forall j :: 0 <= j < i ==> queue[k].score <= queue[j].score
    {
      if queue[i].score < queue[k].score { k := i; }
    }
  }

  method PushChildren(g: Graph, best: seq<ArcScore>, queue: seq<Path>, lo: nat, hi: nat, baseScore: real)
    returns (queue': seq<Path>)
    requires lo <= hi <= |g.arcs|
    requires Forwards(g) && |best| == g.finalNode + 1
    ensures queue' == queue + Children(g, best, baseScore, lo, hi)
  {
    queue' := queue;
    for i := lo to hi
      invariant queue' == queue + Children(g, best, baseScore, lo, i)
    {
      var score := baseScore + g.arcs[i].weight + best[g.arcs[i].end].score;
      queue' := queue' + [Path(score, g.arcs[i].end)];
      assert Children(g, best, baseScore, lo, i + 1) == Children(g, best, baseScore, lo, i) + [Child(g, best, baseScore, i)];
    }
  }

  /** Pushes every move out of a popped entry: match or substitution along each arc, deletion,
      insertion of each arc, free traversal of the arcs with word 0. */
  method PushSuccessors(g: Graph, ref: seq<int>, queue: seq<OraclePath>, path: OraclePath, lo: nat, hi: nat)
    returns (queue': seq<OraclePath>)
    requires lo <= hi <= |g.arcs|
    ensures queue' == queue + Successors(g, ref, path, lo, hi)
  {
    queue' := queue;
    if path.refIndex < |ref| {
      queue' := PushSubstitutions(g, ref, queue', path, lo, hi);
      queue' := queue' + [OraclePath(path.wer + 1, path.score, path.arcIndex, path.refIndex, path.refIndex + 1)];
    }
    queue' := PushInsertions(g, queue', path, lo, hi);
    queue' := PushEpsilons(g, queue', path, lo, hi);
  }

  method PushSubstitutions(g: Graph, ref: seq<int>, queue: seq<OraclePath>, path: OraclePath, lo: nat, hi: nat)
    returns (queue': seq<OraclePath>)
    requires lo <= hi <= |g.arcs| && path.refIndex < |ref|
    ensures queue' == queue + Subs(g, ref, path, lo, hi)
  {
    queue' := queue;
    for i := lo to hi
      invariant queue' == queue + Subs(g, ref, path, lo, i)
    {
      queue' := queue' + [OraclePath(path.wer + (if g.arcs[i].word == ref[path.refIndex] then 0 else 1),
                                     path.score + g.arcs[i].weight, i, path.refIndex, path.refIndex + 1)];
    }
  }

  method PushInsertions(g: Graph, queue: seq<OraclePath>, path: OraclePath, lo: nat, hi: nat)
    returns (queue': seq<OraclePath>)
    requires lo <= hi <= |g.arcs|
    ensures queue' == queue + Inss(g, path, lo, hi)
  {
    queue' := queue;
    for i := lo to hi
      invariant queue' == queue + Inss(g, path, lo, i)
    {
      queue' := queue' + [OraclePath(path.wer + 1, path.score + g.arcs[i].weight, i, path.refIndex, path.refIndex)];
    }
  }

  method PushEpsilons(g: Graph, queue: seq<OraclePath>, path: OraclePath, lo: nat, hi: nat)
    returns (queue': seq<OraclePath>)
    requires lo <= hi <= |g.arcs|
    ensures queue' == queue + Epss(g, path, lo, hi)
  {
    queue' := queue;
    for i := lo to hi
      invariant queue' == queue + Epss(g, path, lo, i)
    {
      if g.arcs[i].word == 0 {
        queue' := queue' + [OraclePath(path.wer, path.score + g.arcs[i].weight, i, path.refIndex, path.refIndex)];
      }
    }
  }

  /** Replaces the popped entry by its one-arc extensions. */
  method ExpandPath(g: Graph, nodeArcs: seq<nat>, best: seq<ArcScore>, queue: seq<Path>, k: nat,
                    ghost parts: seq<seq<nat>>, ghost scores: seq<real>, ghost done: seq<seq<nat>>)
    returns (queue': seq<Path>, ghost parts': seq<seq<nat>>)
    requires WellFormed(g) && Indexed(g, nodeArcs) && Bellman(g, best) && NBestInv(g, best, queue, parts, scores, done)
    requires NodesOk(g, queue) && k < |queue| && queue[k].node != g.finalNode
    ensures NBestInv(g, best, queue', parts', scores, done)
    ensures NodesOk(g, queue') && QueueSize(g, queue') < QueueSize(g, queue)
  {
    hide NBestInv, WellFormed, Children, Remove, Extensions;
    var path := queue[k];
    SameLength(g, best, queue, parts, scores, done);
    var lo, hi := nodeArcs[path.node], nodeArcs[path.node + 1];
    var baseScore := path.score - best[path.node].score;
    ExpandStep(g, best, queue, parts, scores, done, k, lo, hi);
    parts' := Remove(parts, k) + Extensions(parts[k], lo, hi);
    queue' := PushChildren(g, best, Remove(queue, k), lo, hi, baseScore);
  }

  /** What the unsigned countdown holds after some scores have been listed. */
  function Countdown(n: nat, listed: nat): int
  {
    if listed == 0 then n else if n == 0 then WRAP - listed else n - listed
  }

  lemma UsableParts(g: Graph, nodeArcs: seq<nat>)
    requires WellFormed(g) && Indexed(g, nodeArcs)
    ensures Forwards(g) && |nodeArcs| == g.finalNode + 2
  {
  }

  lemma NodeArcs(g: Graph, nodeArcs: seq<nat>, n: nat)
    requires Indexed(g, nodeArcs) && n <= g.finalNode
    ensures |nodeArcs| == g.finalNode + 2 && nodeArcs[n] <= nodeArcs[n + 1] <= |g.arcs|
    ensures ArcsOf(g, n, nodeArcs[n], nodeArcs[n + 1])
  {
  }

  lemma BellmanSize(g: Graph, best: seq<ArcScore>)
    requires Bellman(g, best)
    ensures |best| == g.finalNode + 1
  {
  }

  /** The A* loop: queue holds partial paths by forward plus remaining score. */
  method SearchPaths(g: Graph, nodeArcs: seq<nat>, best: seq<ArcScore>, n: nat)
    returns (nbestScores: seq<real>)
    requires WellFormed(g) && Indexed(g, nodeArcs) && Bellman(g, best)
    ensures IsNBestScores(g, if n == 0 then WRAP else n, nbestScores)
  {
    hide NBestInv, IsNBestScores, WellFormed, Remove, Children, Extensions, QueueSize, Bellman, Indexed, ArcsOf, NodesOk;
    UsableParts(g, nodeArcs);
    NodeArcs(g, nodeArcs, 0);
    BellmanSize(g, best);
    ghost var limit := if n == 0 then WRAP else n;
    ghost var parts := Extensions([], nodeArcs[0], nodeArcs[1]);
    var left := n;
    ghost var paths: seq<seq<nat>> := [];
    nbestScores := [];
    NBestStart(g, best, nodeArcs[0], nodeArcs[1]);
    var queue := PushChildren(g, best, [], nodeArcs[0], nodeArcs[1], 0.0);
    assert queue == Children(g, best, 0.0, nodeArcs[0], nodeArcs[1]);
    while queue != []
      invariant NBestInv(g, best, queue, parts, nbestScores, paths)
      invariant NodesOk(g, queue)
      invariant |nbestScores| < limit && left == Countdown(n, |nbestScores|)
      decreases QueueSize(g, queue)
    {
      var k := TopPath(queue);
      var path := queue[k];
      if path.node == g.finalNode {
        SameLength(g, best, queue, parts, nbestScores, paths);
        EmitStep(g, best, queue, parts, nbestScores, paths, k);
        nbestScores, paths := nbestScores + [path.score], paths + [parts[k]];
        queue, parts := Remove(queue, k), Remove(parts, k);
        left := if left == 0 then WRAP - 1 else left - 1;
        if left == 0 { return; }
      } else {
        queue, parts := ExpandPath(g, nodeArcs, best, queue, k, parts, nbestScores, paths);
      }
    }
    NBestDone(g, best, parts, nbestScores, paths, limit);
  }

  function Reversed(s: seq<nat>): (r: seq<nat>)
    ensures |r| == |s| && forall k :: 0 <= k < |s| ==> r[k] == s[|s| - 1 - k]
  {
    seq(|s|, k requires 0 <= k < |s| => s[|s| - 1 - k])
  }

  lemma OracleAtMostAll(g: Graph, ref: seq<int>, w: int)
    requires IsOracleWER(g, ref, w)
    ensures forall p :: IsPath(g, p, 0, g.finalNode) ==> 0 <= w <= Longer(|p|, |ref|)
  {
    forall p | IsPath(g, p, 0, g.finalNode)
      ensures 0 <= w <= Longer(|p|, |ref|)
    {
      OracleAtMost(g, ref, w, p);
    }
  }

  /** A token is spoken unless it is a tag and tags are skipped. */
  lemma SpokenToken(w: int, tag: bool)
    ensures SpokenTokens([(w, tag)], false) == [w]
    ensures SpokenTokens([(w, tag)], true) == if tag then [] else [w]
    ensures SpokenTokens([], true) == SpokenTokens([], false) == []
  {
    assert [(w, tag)][..0] == [];
  }

  /** Speaking a text is speaking its parts. */
  lemma {:induction false} SpokenTokensConcat(a: seq<(int, bool)>, b: seq<(int, bool)>, skipTags: bool)
    ensures SpokenTokens(a + b, skipTags) == SpokenTokens(a, skipTags) + SpokenTokens(b, skipTags)
  {
    if b == [] {
      assert a + b == a;
    } else {
      SpokenTokensConcat(a, b[..|b| - 1], skipTags);
      assert (a + b)[..|a + b| - 1] == a + b[..|b| - 1];
    }
  }

  lemma ItemArc(g: Graph, q: OraclePath)
    requires ItemOk(g, q)
    ensures ArcOk(g, q)
  {
  }

  lemma RemoveSize(queue: seq<OraclePath>, k: nat)
    requires k < |queue|
    ensures |Remove(queue, k)| < |queue|
  {
  }

  lemma SearchInv(g: Graph, ref: seq<int>, queue: seq<OraclePath>, dist: map<State, int>, parents: map<State, State>)
    requires SearchOk(g, ref, queue, dist, parents)
    ensures OracleInv(g, ref, queue, dist)
  {
  }

  /** The tokens that count: tags drop out when they are skipped. */
  function SpokenTokens(tokens: seq<(int, bool)>, skipTags: bool): seq<int>
  {
    if tokens == [] then []
    else
      var last := tokens[|tokens| - 1];
      SpokenTokens(tokens[..|tokens| - 1], skipTags) + (if skipTags && last.1 then [] else [last.0])
  }

  class Lattice {
    var finalNode: nat
    var arcs: seq<Arc>
    var nodeArcs: seq<nat>
    var ref: seq<int>
    var oracleWER: int
    /** Arcs read back after the oracle search. */
    var oraclePath: seq<nat>
    var skipTags: bool
    /** Words whose text starts with '<'. */
    const isTag: int -> bool

    constructor (isTag: int -> bool)
      ensures skipTags && this.isTag == isTag && arcs == [] && ref == []
    {
      this.isTag := isTag;
      skipTags := true;
      finalNode, arcs, nodeArcs, ref, oracleWER := 0, [], [], [], 0;
    }

    function G(): Graph
      reads this
    {
      Graph(finalNode, arcs)
    }

    ghost predicate Valid()
      reads this
    {
      WellFormed(G()) && Indexed(G(), nodeArcs)
    }

    /** The words that decoding leaves out. */
    function Skips(): (skips: int -> bool)
      reads this
      ensures !skipTags ==> forall w :: !skips(w)
      ensures skipTags ==> forall w :: skips(w) <==> isTag(w)
    {
      var skip, tag := skipTags, isTag;
      w => skip && tag(w)
    }

    // ----- loading -----

    /** Reads the entries, sorts the arcs, indexes them by start node and joins the final
        states. The object is usable when arcs go forward and no node is a dead end. */
    method LoadLattice(entries: seq<Entry>) returns (r: LoadResult)
      requires ArcsOfEntries(entries) != []
      modifies this
      ensures r == FirstError(entries)
      ensures r == Loaded ==> Arranged(ArcsOfEntries(entries), G(), nodeArcs)
      ensures r == Loaded && NoDeadEnd(G()) && Forwards(G()) ==> Valid()
      ensures ref == old(ref) && skipTags == old(skipTags)
    {
      var read;
      r, read := ReadEntries(entries);
      if r != Loaded { return; }
      var g;
      g, nodeArcs := ArrangeArcs(read);
      finalNode, arcs := g.finalNode, g.arcs;
      assert G() == g;
      if NoDeadEnd(g) && Forwards(g) {
        ArrangedIsUsable(ArcsOfEntries(entries), g, nodeArcs);
      }
    }

    // ----- best path -----

    /** Backward sweep over the arcs; bestArcs[n] receives the best arc out of n. */
    method ReverseViterbiSearch(bestArcs: array<ArcScore>)
      requires Valid() && bestArcs.Length == finalNode + 1
      modifies bestArcs
      ensures Bellman(G(), bestArcs[..])
    {
      var currentNode := finalNode;
      var bestArc := -1;
      var bestScore := 0.0;
      var i := |arcs| - 1;
      while i != -1
        invariant -1 <= i < |arcs|
        invariant Swept(G(), bestArcs[..], currentNode, bestArc, bestScore, i + 1)
      {
        ghost var was := bestArcs[..];
        if currentNode != arcs[i].start {
          ghost var cur, arc, score := currentNode, bestArc, bestScore;
          bestArcs[currentNode] := ArcScore(bestArc, bestScore);
          currentNode := arcs[i].start;
          bestArc := i;
          bestScore := bestArcs[arcs[i].end].score + arcs[i].weight;
          SweepNewNode(G(), was, cur, arc, score, i, bestArcs[..]);
        } else {
          SweepSameNode(G(), was, currentNode, bestArc, bestScore, i);
          var pathScore := bestArcs[arcs[i].end].score + arcs[i].weight;
          if pathScore < bestScore {
            bestArc := i;
            bestScore := pathScore;
          }
        }
        i := i - 1;
      }
      ghost var last := bestArcs[..];
      bestArcs[currentNode] := ArcScore(bestArc, bestScore);
      SweepEnd(G(), last, currentNode, bestArc, bestScore, bestArcs[..]);
    }

    /** Follows the best arcs from node 0 and collects the words that are not skipped. */
    method FindBestPath(bestArcs: array<ArcScore>) returns (score: real, bestPath: seq<int>)
      requires Valid() && Bellman(G(), bestArcs[..])
      ensures score == bestArcs[0].score
      ensures bestPath == Decoded(G(), BestPath(G(), bestArcs[..], 0), Skips())
    {
      bestPath := FollowBestArcs(G(), bestArcs[..], Skips());
      score := bestArcs[0].score;
    }

    /** Edit distance to the reference of the words of a lightest path; when word 0 is the
        only word that decoding drops, the oracle rate is a lower bound. */
    method ComputeWER() returns (wer: int)
      requires Valid()
      ensures exists p :: IsLightest(G(), p) && wer == Dist(Decoded(G(), p, Skips()), ref, false)
      ensures IsOracleWER(G(), ref, oracleWER) && OnlyZeroDropped(G(), Skips()) ==> oracleWER <= wer
    {
      var bestArcs := new ArcScore[finalNode + 1];
      ReverseViterbiSearch(bestArcs);
      var score, hyp := FindBestPath(bestArcs);
      ghost var p := BestPath(G(), bestArcs[..], 0);
      ViterbiTableIsExact(G(), bestArcs[..], 0);
      if IsOracleWER(G(), ref, oracleWER) && OnlyZeroDropped(G(), Skips()) {
        OracleIsLowerBound(G(), ref, oracleWER, p, Skips());
      }
      wer := Distance(hyp, ref);
      assert IsLightest(G(), p);
    }

    // ----- n-best -----

    /** Forward A* search with the exact remaining scores; n counts down to 0 and, as an
        unsigned 64-bit number, wraps when it starts there. */
    method FindNBestPaths(bestArcs: array<ArcScore>, n: nat) returns (nbestScores: seq<real>)
      requires Valid() && Bellman(G(), bestArcs[..])
      ensures IsNBestScores(G(), if n == 0 then 0x1_0000_0000_0000_0000 else n, nbestScores)
    {
      nbestScores := SearchPaths(G(), nodeArcs, bestArcs[..], n);
    }

    // ----- oracle -----

    /** Takes the tokens of a reference text; a token is its vocabulary index and whether
        it starts with '<'. */
    method SetReferenceText(tokens: seq<(int, bool)>) returns (found: bool)
      requires Valid()
      requires |tokens| <= 0xFFFF
      modifies this
      ensures Valid() && G() == old(G()) && skipTags == old(skipTags)
      ensures ref == SpokenTokens(tokens, skipTags)
      ensures found && IsOracleWER(G(), ref, oracleWER)
    {
      var words: seq<int> := [];
      for i := 0 to |tokens|
        invariant words == SpokenTokens(tokens[..i], skipTags) && |words| <= i
      {
        assert tokens[..i + 1][..i] == tokens[..i];
        if !(skipTags && tokens[i].1) {
          words := words + [tokens[i].0];
        }
      }
      assert tokens[..|tokens|] == tokens;
      ref := words;
      found := FindOraclePath();
    }

    /** Best-first search over (node, reference position); false stands for the exception
        thrown when the queue runs dry, which cannot happen. */
    method FindOraclePath() returns (found: bool)
      requires Valid()
      requires |ref| <= 0xFFFF
      modifies this`oracleWER, this`oraclePath
      ensures found && IsOracleWER(G(), ref, oracleWER)
      ensures forall p :: IsPath(G(), p, 0, finalNode) ==> 0 <= oracleWER <= Longer(|p|, |ref|)
      ensures forall k :: 0 <= k < |oraclePath| ==> oraclePath[k] < |arcs|
      ensures finalNode > 0 ==> oraclePath != [] && arcs[oraclePath[|oraclePath| - 1]].end == finalNode
    {
      hide OracleInv, SearchOk, ItemOk, ParentsOk, IsOracleWER, Successors, Remove, Entered, WellFormed, Indexed, ArcsOf;
      UsableParts(G(), nodeArcs);
      var bestParent: map<State, State> := map[];
      ghost var dist: map<State, int> := map[];
      ghost var all := set n, r | 0 <= n <= finalNode && 0 <= r <= |ref| :: (n, r);
      var paths := [OraclePath(0, 0.0, -1, 0, 0)];
      SearchStart(G(), ref);
      while paths != []
        invariant SearchOk(G(), ref, paths, dist, bestParent)
        decreases all - bestParent.Keys, |paths|
      {
        var k := TopOracle(paths);
        var path := paths[k];
        SearchItem(G(), ref, paths, dist, bestParent, k);
        ItemArc(G(), path);
        var node := NodeOf(G(), path);
        if (node, path.refIndex) !in bestParent {
          var parent: State := (if path.arcIndex == -1 then 0 else arcs[path.arcIndex].start, path.prevRefIndex);
          if node == finalNode && path.refIndex == |ref| {
            SearchFound(G(), ref, paths, dist, bestParent, k);
            bestParent := bestParent[(node, path.refIndex) := parent];
            var back := ReadBack(G(), nodeArcs, bestParent, (node, path.refIndex));
            oraclePath := Reversed(back);
            oracleWER := path.wer;
            OracleAtMostAll(G(), ref, path.wer);
            return true;
          }
          NodeArcs(G(), nodeArcs, node);
          SearchExpand(G(), ref, paths, dist, bestParent, k, nodeArcs[node], nodeArcs[node + 1]);
          assert (node, path.refIndex) in all - bestParent.Keys;
          bestParent := bestParent[(node, path.refIndex) := parent];
          dist := dist[(node, path.refIndex) := path.wer];
          paths := PushSuccessors(G(), ref, Remove(paths, k), path, nodeArcs[node], nodeArcs[node + 1]);
        } else {
          SearchSkip(G(), ref, paths, dist, bestParent, k);
          RemoveSize(paths, k);
          paths := Remove(paths, k);
        }
      }
      SearchInv(G(), ref, paths, dist, bestParent);
      QueueNeverEmpty(G(), ref, paths, dist);
      found := false;
    }

    // ----- forward and backward sums -----

    method ComputeForwardScores(prob: seq<real>, nodeScores: array<real>)
      requires Valid() && |prob| == |arcs| && nodeScores.Length == finalNode + 1
      modifies nodeScores
      ensures IsForward(G(), prob, nodeScores[..])
    {
      for n := 0 to finalNode + 1
        invariant forall m :: 0 <= m < n ==> nodeScores[m] == 0.0
      {
        nodeScores[n] := 0.0;
      }
      nodeScores[0] := 1.0;
      ForwardStart(G(), prob, nodeScores[..]);
      for i := 0 to |arcs|
        invariant ForwardPart(G(), prob, nodeScores[..], i)
      {
        ghost var was := nodeScores[..];
        var s, e := arcs[i].start, arcs[i].end;
        var v := nodeScores[e] + nodeScores[s] * prob[i];
        assert v == was[e] + was[s] * prob[i];
        nodeScores[e] := v;
        assert nodeScores[..] == was[e := v];
        ForwardStep(G(), prob, was, i, v, nodeScores[..]);
      }
    }

    method ComputeBackwardScores(prob: seq<real>, nodeScores: array<real>)
      requires Valid() && |prob| == |arcs| && nodeScores.Length == finalNode + 1
      modifies nodeScores
      ensures IsBackward(G(), prob, nodeScores[..])
    {
      var currentNode := finalNode;
      var totScore := 1.0;
      var i := |arcs| - 1;
      while i != -1
        invariant -1 <= i < |arcs|
        invariant BackwardPart(G(), prob, nodeScores[..], currentNode, totScore, i + 1)
      {
        ghost var was := nodeScores[..];
        if currentNode != arcs[i].start {
          ghost var cur, total := currentNode, totScore;
          nodeScores[currentNode] := totScore;
          currentNode := arcs[i].start;
          totScore := nodeScores[arcs[i].end] * prob[i];
          BackwardNewNode(G(), prob, was, cur, total, i, nodeScores[..]);
        } else {
          BackwardSameNode(G(), prob, was, currentNode, totScore, i);
          totScore := totScore + nodeScores[arcs[i].end] * prob[i];
        }
        i := i - 1;
      }
      ghost var last := nodeScores[..];
      nodeScores[currentNode] := totScore;
      BackwardEnd(G(), prob, last, currentNode, totScore, nodeScores[..]);
    }

    /** Posterior of every arc, and the flow law the posteriors obey. */
    method ComputePosteriorProbs(prob: seq<real>, fwd: seq<real>, bwd: seq<real>) returns (arcProbs: seq<real>)
      requires Valid() && IsForward(G(), prob, fwd) && IsBackward(G(), prob, bwd)
      requires forall i :: 0 <= i < |prob| ==> prob[i] > 0.0
      ensures |arcProbs| == |arcs| && fwd[finalNode] > 0.0
      ensures forall i :: 0 <= i < |arcs| ==>
                arcProbs[i] == fwd[arcs[i].start] * prob[i] * bwd[arcs[i].end] / fwd[finalNode]
      ensures forall n :: 0 < n <= finalNode ==> CutMass(G(), arcProbs, n, |arcs|) == 1.0
    {
      ghost var g := G();
      ghost var mass := seq(|g.arcs|, i requires 0 <= i < |g.arcs| => ArcMass(g, prob, fwd, bwd, i));
      TotalsAgree(G(), prob, fwd, bwd, mass);
      BackwardPositive(G(), prob, bwd, 0);
      var totScore := fwd[finalNode];
      arcProbs := [];
      for i := 0 to |arcs|
        invariant |arcProbs| == i
        invariant forall k :: 0 <= k < i ==> arcProbs[k] == mass[k] / totScore
      {
        arcProbs := arcProbs + [fwd[arcs[i].start] * prob[i] * bwd[arcs[i].end] / totScore];
      }
      assert arcProbs == Posteriors(mass, totScore);
      forall n | 0 < n <= finalNode
        ensures CutMass(G(), arcProbs, n, |arcs|) == 1.0
      {
        UnitFlow(G(), prob, fwd, bwd, mass, n);
      }
    }
  }
}
