/** The search space behind the oracle word error rate: states (node, reference position),
    moves between them, and the invariant of the best-first search over them. */
module LatticeOracle {
  import opened Sequences
  import opened LatticeGraph
  import opened EditDistance

  type State = (nat, nat)

  datatype Move = Sub(arc: nat) | Del | Ins(arc: nat) | Eps(arc: nat)

  ghost predicate CanMove(g: Graph, ref: seq<int>, s: State, m: Move)
  {
    match m
    case Sub(i) => i < |g.arcs| && g.arcs[i].start == s.0 && s.1 < |ref|
    case Del => s.1 < |ref|
    case Ins(i) => i < |g.arcs| && g.arcs[i].start == s.0
    case Eps(i) => i < |g.arcs| && g.arcs[i].start == s.0 && g.arcs[i].word == 0
  }

  ghost function Target(g: Graph, ref: seq<int>, s: State, m: Move): State
    requires CanMove(g, ref, s, m)
  {
    match m
    case Sub(i) => (g.arcs[i].end, s.1 + 1)
    case Del => (s.0, s.1 + 1)
    case Ins(i) => (g.arcs[i].end, s.1)
    case Eps(i) => (g.arcs[i].end, s.1)
  }

  ghost function MoveCost(g: Graph, ref: seq<int>, s: State, m: Move): nat
    requires CanMove(g, ref, s, m)
  {
    match m
    case Sub(i) => SubstCost(g.arcs[i].word, ref[s.1])
    case Del => 1
    case Ins(i) => 1
    case Eps(i) => 0
  }

  // ----- runs from state (0, 0) -----

  /** ms is a run of moves from (0, 0) to s of total cost c. */
  ghost predicate Run(g: Graph, ref: seq<int>, ms: seq<Move>, s: State, c: int)
    decreases |ms|
  {
    if ms == [] then s == (0, 0) && c == 0
    else exists s', c' :: Run(g, ref, Init(ms), s', c') && Steps(g, ref, s', c', Last(ms), s, c)
  }

  ghost predicate Steps(g: Graph, ref: seq<int>, s': State, c': int, m: Move, s: State, c: int)
  {
    CanMove(g, ref, s', m) && s == Target(g, ref, s', m) && c == c' + MoveCost(g, ref, s', m)
  }

  ghost predicate Reaches(g: Graph, ref: seq<int>, s: State, c: int)
  {
    exists ms :: Run(g, ref, ms, s, c)
  }

  lemma RunStep(g: Graph, ref: seq<int>, s': State, c': int, m: Move)
    requires Reaches(g, ref, s', c') && CanMove(g, ref, s', m)
    ensures Reaches(g, ref, Target(g, ref, s', m), c' + MoveCost(g, ref, s', m))
  {
    var ms :| Run(g, ref, ms, s', c');
    Extend'(ms, m);
    assert Steps(g, ref, s', c', m, Target(g, ref, s', m), c' + MoveCost(g, ref, s', m));
    assert Run(g, ref, ms + [m], Target(g, ref, s', m), c' + MoveCost(g, ref, s', m));
  }

  lemma Extend'(ms: seq<Move>, m: Move)
    ensures Init(ms + [m]) == ms && Last(ms + [m]) == m
  {
  }

  /** w is the least cost of reaching the final node with the whole reference consumed. */
  ghost predicate IsOracleWER(g: Graph, ref: seq<int>, w: int)
  {
    && Reaches(g, ref, (g.finalNode, |ref|), w)
    && forall c :: Reaches(g, ref, (g.finalNode, |ref|), c) ==> w <= c
  }

  // ----- runs against paths and edit distance -----

  ghost function Words(g: Graph, p: seq<nat>): (ws: seq<int>)
    requires InRange(g, p)
    ensures |ws| == |p|
  {
    seq(|p|, k requires 0 <= k < |p| => g.arcs[p[k]].word)
  }

  lemma WordsSnoc(g: Graph, p: seq<nat>, i: nat)
    requires InRange(g, p) && i < |g.arcs|
    ensures InRange(g, p + [i]) && Words(g, p + [i]) == Words(g, p) + [g.arcs[i].word]
  {
  }

  /** Distance from the words of p to the first r words of the reference, word 0 free. */
  ghost function Away(g: Graph, p: seq<nat>, ref: seq<int>, r: nat): nat
    requires InRange(g, p) && r <= |ref|
  {
    PrefixDist(Words(g, p), |p|, ref, r, true)
  }

  lemma AwaySnoc(g: Graph, p: seq<nat>, i: nat, ref: seq<int>, r: nat)
    requires InRange(g, p) && i < |g.arcs| && r <= |ref|
    ensures InRange(g, p + [i])
    ensures var ins := Away(g, p, ref, r) + InsertCost(g.arcs[i].word, true);
            Away(g, p + [i], ref, r) ==
              if r == 0 then ins
              else Min(Min(ins, Away(g, p + [i], ref, r - 1) + 1),
                       Away(g, p, ref, r - 1) + SubstCost(g.arcs[i].word, ref[r - 1]))
  {
    var h, h' := Words(g, p), Words(g, p + [i]);
    hide PrefixDist;
    WordsSnoc(g, p, i);
    DistStep(h', |p| + 1, ref, r, true);
    PrefixFrame(h, h', |p|, ref, r, true);
    if r > 0 { PrefixFrame(h, h', |p|, ref, r - 1, true); }
  }

  /** One more deletion costs at most 1. */
  lemma AwayDelete(g: Graph, p: seq<nat>, ref: seq<int>, r: nat)
    requires InRange(g, p) && r < |ref|
    ensures Away(g, p, ref, r + 1) <= Away(g, p, ref, r) + 1
  {
    DistStep(Words(g, p), |p|, ref, r, true);
    DistStep(Words(g, p), |p|, ref, r + 1, true);
  }

  /** One move changes the distance by at most its cost. */
  lemma AwayMove(g: Graph, p: seq<nat>, ref: seq<int>, s: State, m: Move)
    requires InRange(g, p) && CanMove(g, ref, s, m) && s.1 <= |ref|
    ensures var p' := if m.Del? then p else p + [m.arc];
            InRange(g, p') && Away(g, p', ref, Target(g, ref, s, m).1) <= Away(g, p, ref, s.1) + MoveCost(g, ref, s, m)
  {
    hide Away;
    match m
    case Del => AwayDelete(g, p, ref, s.1);
    case Sub(i) => AwaySnoc(g, p, i, ref, s.1 + 1);
    case Ins(i) => AwaySnoc(g, p, i, ref, s.1);
    case Eps(i) => AwaySnoc(g, p, i, ref, s.1);
  }

  lemma PathMove(g: Graph, p: seq<nat>, ref: seq<int>, s: State, m: Move)
    requires IsPath(g, p, 0, s.0) && CanMove(g, ref, s, m) && s.1 <= |ref|
    ensures IsPath(g, if m.Del? then p else p + [m.arc], 0, Target(g, ref, s, m).0)
    ensures Target(g, ref, s, m).1 <= |ref|
  {
    if !m.Del? { PathSnoc(g, p, 0, m.arc); }
  }

  /** Every run projects to a path whose words are at most that far from the reference. */
  lemma {:induction false} RunHasPath(g: Graph, ref: seq<int>, ms: seq<Move>, s: State, c: int)
    returns (p: seq<nat>)
    requires Run(g, ref, ms, s, c)
    ensures IsPath(g, p, 0, s.0) && s.1 <= |ref|
    ensures Away(g, p, ref, s.1) <= c
    decreases |ms|
  {
    if ms == [] {
      p := [];
    } else {
      var s': State, c' :| Run(g, ref, Init(ms), s', c') && Steps(g, ref, s', c', Last(ms), s, c);
      var m := Last(ms);
      p := RunHasPath(g, ref, Init(ms), s', c');
      hide Run, Away, IsPath;
      PathMove(g, p, ref, s', m);
      AwayMove(g, p, ref, s', m);
      p := if m.Del? then p else p + [m.arc];
    }
  }

  /** Every path can be aligned with the reference by a run at exactly the distance. */
  lemma {:induction false} PathHasRun(g: Graph, ref: seq<int>, p: seq<nat>, n: nat, r: nat)
    requires IsPath(g, p, 0, n) && r <= |ref|
    ensures Reaches(g, ref, (n, r), Away(g, p, ref, r))
    decreases |p| + r, 1
  {
    if p != [] {
      PathHasRunSnoc(g, ref, p, n, r);
    } else if r == 0 {
      assert Run(g, ref, [], (n, r), 0);
    } else {
      hide Run;
      PathHasRun(g, ref, p, n, r - 1);
      RunStep(g, ref, (n, r - 1), r - 1, Del);
    }
  }

  lemma {:induction false} PathHasRunSnoc(g: Graph, ref: seq<int>, p: seq<nat>, n: nat, r: nat)
    requires IsPath(g, p, 0, n) && r <= |ref| && p != []
    ensures Reaches(g, ref, (n, r), Away(g, p, ref, r))
    decreases |p| + r, 0
  {
    hide IsPath, Reaches, Away;
    PathInit(g, p, 0, n);
    var q, i := Init(p), Last(p);
    var n', w := g.arcs[i].start, g.arcs[i].word;
    assert q + [i] == p;
    AwaySnoc(g, q, i, ref, r);
    if Away(g, p, ref, r) == Away(g, q, ref, r) + InsertCost(w, true) {
      PathHasRun(g, ref, q, n', r);
      RunStep(g, ref, (n', r), Away(g, q, ref, r), if w == 0 then Eps(i) else Ins(i));
    } else if Away(g, p, ref, r) == Away(g, p, ref, r - 1) + 1 {
      PathHasRun(g, ref, p, n, r - 1);
      RunStep(g, ref, (n, r - 1), Away(g, p, ref, r - 1), Del);
    } else {
      PathHasRun(g, ref, q, n', r - 1);
      RunStep(g, ref, (n', r - 1), Away(g, q, ref, r - 1), Sub(i));
    }
  }

  /** The oracle word error rate is the least edit distance, with word 0 free, between the
      reference and the words of a complete path. */
  lemma OracleIsClosestPath(g: Graph, ref: seq<int>, w: int)
    requires IsOracleWER(g, ref, w)
    ensures exists p :: IsPath(g, p, 0, g.finalNode) && Dist(Words(g, p), ref, true) == w
    ensures forall p :: IsPath(g, p, 0, g.finalNode) ==> w <= Dist(Words(g, p), ref, true)
  {
    forall p | IsPath(g, p, 0, g.finalNode)
      ensures w <= Dist(Words(g, p), ref, true)
    {
      PathHasRun(g, ref, p, g.finalNode, |ref|);
    }
    var ms :| Run(g, ref, ms, (g.finalNode, |ref|), w);
    var p := RunHasPath(g, ref, ms, (g.finalNode, |ref|), w);
  }

  /** The oracle rate is at most the longer of any complete path and the reference, and, when
      they are equally long, at most the number of positions at which their words differ. */
  lemma OracleAtMost(g: Graph, ref: seq<int>, w: int, p: seq<nat>)
    requires IsOracleWER(g, ref, w) && IsPath(g, p, 0, g.finalNode)
    ensures 0 <= w <= Longer(|p|, |ref|)
    ensures |p| == |ref| ==> w <= Differing(Words(g, p), ref, |ref|)
  {
    hide PrefixDist, IsOracleWER;
    OracleIsClosestPath(g, ref, w);
    var h := Words(g, p);
    FreeIsCheaper(h, |h|, ref, |ref|);
    DistanceFacts(h, ref);
    if |p| == |ref| {
      DistAtMostDiffering(h, ref, |ref|, true);
    }
  }

  // ----- oracle against decoded word error rate -----

  /** The decoded words of a complete path: its last arc, and tags when they are skipped, drop out. */
  ghost function Decoded(g: Graph, p: seq<nat>, skip: int -> bool): seq<int>
    requires InRange(g, p)
  {
    if p == [] then [] else Spoken(g, Init(p), skip)
  }

  ghost function Spoken(g: Graph, p: seq<nat>, skip: int -> bool): seq<int>
    requires InRange(g, p)
    decreases |p|
  {
    if p == [] then []
    else
      var w := g.arcs[Last(p)].word;
      Spoken(g, Init(p), skip) + (if skip(w) then [] else [w])
  }

  /** Number of arcs of p that decoding drops although their word is not word 0. */
  ghost function Dropped(g: Graph, p: seq<nat>, skip: int -> bool): nat
    requires InRange(g, p)
  {
    if p == [] then 0
    else DroppedTags(g, Init(p), skip) + InsertCost(g.arcs[Last(p)].word, true)
  }

  ghost function DroppedTags(g: Graph, p: seq<nat>, skip: int -> bool): nat
    requires InRange(g, p)
    decreases |p|
  {
    if p == [] then 0
    else
      var w := g.arcs[Last(p)].word;
      DroppedTags(g, Init(p), skip) + (if skip(w) then InsertCost(w, true) else 0)
  }

  /** Distance from what decoding keeps of p. */
  ghost function Heard(g: Graph, p: seq<nat>, r: seq<int>, j: nat, skip: int -> bool): nat
    requires InRange(g, p) && j <= |r|
  {
    PrefixDist(Spoken(g, p, skip), |Spoken(g, p, skip)|, r, j, true)
  }

  lemma {:induction false} SpokenDistance(g: Graph, p: seq<nat>, r: seq<int>, j: nat, skip: int -> bool)
    requires InRange(g, p) && j <= |r|
    ensures Away(g, p, r, j) <= Heard(g, p, r, j, skip) + DroppedTags(g, p, skip)
    decreases |p|
  {
    if p != [] {
      var q, i := Init(p), Last(p);
      var w := g.arcs[i].word;
      assert q + [i] == p;
      if skip(w) {
        assert Spoken(g, p, skip) == Spoken(g, q, skip);
        SpokenDistance(g, q, r, j, skip);
        hide PrefixDist;
        AwaySnoc(g, q, i, r, j);
      } else {
        forall m | 0 <= m <= j
          ensures Away(g, q, r, m) <= Heard(g, q, r, m, skip) + DroppedTags(g, q, skip)
        {
          SpokenDistance(g, q, r, m, skip);
        }
        SpokenSnocDistance(g, q, i, r, j, skip);
      }
    }
  }

  lemma SpokenSnocDistance(g: Graph, q: seq<nat>, i: nat, r: seq<int>, j: nat, skip: int -> bool)
    requires InRange(g, q) && i < |g.arcs| && j <= |r| && !skip(g.arcs[i].word)
    requires forall m :: 0 <= m <= j ==> Away(g, q, r, m) <= Heard(g, q, r, m, skip) + DroppedTags(g, q, skip)
    ensures InRange(g, q + [i])
    ensures Away(g, q + [i], r, j) <= Heard(g, q + [i], r, j, skip) + DroppedTags(g, q, skip)
  {
    var w, k := g.arcs[i].word, DroppedTags(g, q, skip);
    assert Init(q + [i]) == q && Last(q + [i]) == i;
    assert Spoken(g, q + [i], skip) == Spoken(g, q, skip) + [w];
    hide PrefixDist, Spoken, DroppedTags;
    WordsSnoc(g, q, i);
    forall m | 0 <= m <= j
      ensures PrefixDist(Words(g, q), |Words(g, q)|, r, m, true)
           <= PrefixDist(Spoken(g, q, skip), |Spoken(g, q, skip)|, r, m, true) + k
    {
      assert Away(g, q, r, m) <= Heard(g, q, r, m, skip) + k;
    }
    DistSnoc(Words(g, q), Spoken(g, q, skip), w, r, j, true, k);
  }

  lemma AwayFromDecoded(g: Graph, p: seq<nat>, ref: seq<int>, skip: int -> bool)
    requires InRange(g, p)
    ensures Away(g, p, ref, |ref|) <= Dist(Decoded(g, p, skip), ref, true) + Dropped(g, p, skip)
  {
    hide PrefixDist, Spoken, DroppedTags;
    if p != [] {
      var q, i := Init(p), Last(p);
      assert q + [i] == p;
      SpokenDistance(g, q, ref, |ref|, skip);
      AwaySnoc(g, q, i, ref, |ref|);
    }
  }

  /** For every lattice the oracle rate is at most the decoded rate plus the number of
      dropped arcs that carry a real word. */
  lemma OracleBelowDecoded(g: Graph, ref: seq<int>, w: int, p: seq<nat>, skip: int -> bool)
    requires IsOracleWER(g, ref, w) && IsPath(g, p, 0, g.finalNode)
    ensures w <= Dist(Decoded(g, p, skip), ref, false) + Dropped(g, p, skip)
  {
    hide PrefixDist, IsPath, Decoded, Dropped, Reaches;
    var h := Decoded(g, p, skip);
    OracleIsClosestPath(g, ref, w);
    FreeIsCheaper(h, |h|, ref, |ref|);
    AwayFromDecoded(g, p, ref, skip);
  }

  lemma {:induction false} NothingDropped(g: Graph, p: seq<nat>, skip: int -> bool)
    requires InRange(g, p)
    requires forall i :: 0 <= i < |g.arcs| && skip(g.arcs[i].word) ==> g.arcs[i].word == 0
    ensures DroppedTags(g, p, skip) == 0
    decreases |p|
  {
    if p != [] {
      NothingDropped(g, Init(p), skip);
    }
  }

  /** When word 0 is the only word decoding drops, the oracle rate is a lower bound. */
  lemma OracleIsLowerBound(g: Graph, ref: seq<int>, w: int, p: seq<nat>, skip: int -> bool)
    requires IsOracleWER(g, ref, w) && IsPath(g, p, 0, g.finalNode)
    requires forall i :: 0 <= i < |g.arcs| && skip(g.arcs[i].word) ==> g.arcs[i].word == 0
    requires forall i :: 0 <= i < |g.arcs| && g.arcs[i].end == g.finalNode ==> g.arcs[i].word == 0
    ensures w <= Dist(Decoded(g, p, skip), ref, false)
  {
    OracleBelowDecoded(g, ref, w, p, skip);
    if p != [] {
      PathInit(g, p, 0, g.finalNode);
      NothingDropped(g, Init(p), skip);
    }
  }

  /** For one complete path the bound holds against every reference if and only if some
      complete path says the decoded words, up to word 0. */
  lemma OracleBoundExactly(g: Graph, p: seq<nat>, skip: int -> bool, oracle: seq<int> -> int)
    requires IsPath(g, p, 0, g.finalNode)
    requires forall ref :: IsOracleWER(g, ref, oracle(ref))
    ensures (forall ref :: oracle(ref) <= Dist(Decoded(g, p, skip), ref, false))
       <==> (exists q :: IsPath(g, q, 0, g.finalNode) && Dist(Words(g, q), Decoded(g, p, skip), true) == 0)
  {
    hide PrefixDist, IsPath, Decoded, Words, IsOracleWER;
    var h := Decoded(g, p, skip);
    SelfDistance(h, |h|);
    OracleIsClosestPath(g, h, oracle(h));
    if q :| IsPath(g, q, 0, g.finalNode) && Dist(Words(g, q), h, true) == 0 {
      forall ref
        ensures oracle(ref) <= Dist(h, ref, false)
      {
        OracleIsClosestPath(g, ref, oracle(ref));
        Triangle(Words(g, q), |Words(g, q)|, h, |h|, ref, |ref|);
      }
    }
  }

  /** With a tag that is a real word the bound fails: the decoded rate of this lattice is 0
      on the empty reference, and no run costs 0. */
  lemma TagsCanBreakTheBound(g: Graph, skip: int -> bool)
    requires g == Graph(2, [Arc(0, 1, 5, 0.0), Arc(1, 2, 0, 0.0)])
    requires skip(5)
    ensures WellFormed(g) && IsPath(g, [0, 1], 0, 2)
    ensures Dist(Decoded(g, [0, 1], skip), [], false) == 0
    ensures !Reaches(g, [], (2, 0), 0)
  {
    assert HasArc(g, 0) by { assert g.arcs[0].start == 0; }
    assert HasArc(g, 1) by { assert g.arcs[1].start == 1; }
    assert Decoded(g, [0, 1], skip) == [] by {
      assert Init([0, 1]) == [0] && Init([0]) == [];
    }
    if Reaches(g, [], (2, 0), 0) {
      var ms :| Run(g, [], ms, (2, 0), 0);
      hide Reaches, Run;
      var p := RunHasPath(g, [], ms, (2, 0), 0);
      OnlyPathDistance(g, p);
    }
  }

  lemma OnlyPathDistance(g: Graph, p: seq<nat>)
    requires g == Graph(2, [Arc(0, 1, 5, 0.0), Arc(1, 2, 0, 0.0)])
    requires Forwards(g) && IsPath(g, p, 0, 2)
    ensures Away(g, p, [], 0) >= 1
  {
    PathForward(g, p, 0, 2);
    assert p == [] + [0] + [1];
    AwaySnoc(g, [], 0, [], 0);
    AwaySnoc(g, [] + [0], 1, [], 0);
  }
}
