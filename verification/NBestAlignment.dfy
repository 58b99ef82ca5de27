/** Exactness of the n-best alignment table in which every cell keeps at most n entries. */
module NBestAlignment {
  import opened Sequences
  import opened Distinctness
  import opened Segmentation
  import opened AlignmentSums
  import opened Sorting

  /** Log scores; the logarithm of zero is minus infinity. */
  datatype Score = NegInf | Fin(v: real)

  predicate AtLeast(a: Score, b: Score)
  {
    b.NegInf? || (a.Fin? && a.v >= b.v)
  }

  function Add(a: Score, b: Score): Score
  {
    if a.NegInf? || b.NegInf? then NegInf else Fin(a.v + b.v)
  }

  /** Below this score an alignment does not count as one. */
  const LOWLOGPROB: real := -1000000000000.0

  predicate Proper(s: Score)
  {
    s.Fin? && s.v > LOWLOGPROB
  }

  /** A table entry: score, last move and the rank of the predecessor in its cell. */
  datatype Entry = Entry(score: Score, backX: int, backY: int, backR: int)

  /** Logarithm of a nonnegative probability under the given real logarithm. */
  function LogL(p: real, ln: real -> real): Score
  {
    if p <= 0.0 then NegInf else Fin(ln(p))
  }

  function Scaled(s: Score, k: nat): Score
  {
    if s.NegInf? then NegInf else Fin(s.v * k as real)
  }

  function Max(a: nat, b: nat): nat
  {
    if a > b then a else b
  }

  /** Score of the move m into cell (a, b): its log probability times its longer side. */
  function MoveScore(t: Task, ln: real -> real, a: nat, b: nat, m: Move): Score
    requires m.dx <= a <= |t.x| && m.dy <= b <= |t.y|
  {
    Scaled(LogL(ProbAt(t, a, b, m), ln), Max(m.dx, m.dy))
  }

  function ViterbiMoves(t: Task): seq<Move>
  {
    Moves(t.par, t.par.eqMap)
  }

  /** The searches leave out pairs of equally long stretches of several tokens unless set to
      allow them. */
  lemma ViterbiMovesAre(t: Task, m: Move)
    ensures m in ViterbiMoves(t) <==>
              || (m.dy == 0 && t.par.delX && 1 <= m.dx <= t.par.maxX)
              || (m.dx == 0 && t.par.delY && 1 <= m.dy <= t.par.maxY)
              || (1 <= m.dx <= t.par.maxX && 1 <= m.dy <= t.par.maxY && !(m.dx == m.dy && m.dx > 1 && !t.par.eqMap))
  {
    MovesAre(t.par, t.par.eqMap);
  }

  ghost predicate Reaches(t: Task, s: seq<Move>, a: nat, b: nat)
  {
    Legal(ViterbiMoves(t), s, a, b)
  }

  /** Score of a whole segmentation. */
  ghost function Total(t: Task, ln: real -> real, s: seq<Move>, a: nat, b: nat): Score
    requires a <= |t.x| && b <= |t.y|
    decreases |s|
  {
    if s == [] || !Fits(Last(s), a, b) then Fin(0.0)
    else
      var m := Last(s);
      Add(MoveScore(t, ln, a, b, m), Total(t, ln, Init(s), a - m.dx, b - m.dy))
  }

  // ----- one cell of the table -----

  /** Entry k of the cell is the segmentation segs[k]. */
  ghost predicate Traced(t: Task, ln: real -> real, cell: seq<Entry>, segs: seq<seq<Move>>, a: nat, b: nat)
    requires a <= |t.x| && b <= |t.y|
  {
    && |cell| == |segs|
    && forall k :: 0 <= k < |cell| ==>
         Reaches(t, segs[k], a, b) && cell[k].score == Total(t, ln, segs[k], a, b)
  }

  /** A segmentation that has no entry is no better than any entry, and the cell is full. */
  ghost predicate Dominated(cell: seq<Entry>, n: nat, score: Score)
  {
    |cell| == n && forall k :: 0 <= k < |cell| ==> AtLeast(cell[k].score, score)
  }

  ghost predicate Dominates(t: Task, ln: real -> real, n: nat, cell: seq<Entry>, segs: seq<seq<Move>>, a: nat, b: nat)
    requires a <= |t.x| && b <= |t.y|
  {
    forall s :: Reaches(t, s, a, b) && s !in segs ==> Dominated(cell, n, Total(t, ln, s, a, b))
  }

  /** The cell holds n best segmentations into (a, b), or all of them when there are fewer. */
  ghost predicate GoodCell(t: Task, ln: real -> real, n: nat, cell: seq<Entry>, segs: seq<seq<Move>>, a: nat, b: nat)
    requires a <= |t.x| && b <= |t.y|
  {
    && |cell| <= n
    && Traced(t, ln, cell, segs, a, b)
    && Distinct(segs)
    && Dominates(t, ln, n, cell, segs, a, b)
  }

  // ----- candidates of a cell -----

  type Cell = (nat, nat)

  /** All cells that a move into (a, b) can come from are in the table. */
  ghost predicate Ready<T>(q: map<Cell, T>, a: nat, b: nat)
  {
    forall c, d :: 0 <= c <= a && 0 <= d <= b && (c, d) != (a, b) ==> (c, d) in q
  }

  /** The candidates that continue the entries before by the move m. */
  function Continued(before: seq<Entry>, m: Move, score: Score): (r: seq<Entry>)
    ensures |r| == |before|
  {
    seq(|before|, k requires 0 <= k < |before| => Entry(Add(score, before[k].score), m.dx, m.dy, k))
  }

  function Candidates(t: Task, ln: real -> real, q: map<Cell, seq<Entry>>, a: nat, b: nat, ms: seq<Move>): seq<Entry>
    requires a <= |t.x| && b <= |t.y| && Ready(q, a, b)
  {
    if ms == [] then []
    else
      Candidates(t, ln, q, a, b, Init(ms))
      + (if Fits(Last(ms), a, b)
         then Continued(q[(a - Last(ms).dx, b - Last(ms).dy)], Last(ms), MoveScore(t, ln, a, b, Last(ms))) else [])
  }

  /** The segmentations behind the candidates. */
  ghost function CandidateSegs(segs: map<Cell, seq<seq<Move>>>, a: nat, b: nat, ms: seq<Move>): seq<seq<Move>>
    requires Ready(segs, a, b)
  {
    if ms == [] then []
    else
      CandidateSegs(segs, a, b, Init(ms))
      + (if Fits(Last(ms), a, b) then Extended(segs[(a - Last(ms).dx, b - Last(ms).dy)], Last(ms)) else [])
  }

  /** A table whose cells so far are good. */
  ghost predicate GoodTable(t: Task, ln: real -> real, n: nat, q: map<Cell, seq<Entry>>, segs: map<Cell, seq<seq<Move>>>)
  {
    && q.Keys == segs.Keys
    && forall c {:trigger q[c]} :: c in q ==>
         c.0 <= |t.x| && c.1 <= |t.y| && GoodCell(t, ln, n, q[c], segs[c], c.0, c.1)
  }

  lemma TotalSnoc(t: Task, ln: real -> real, s: seq<Move>, m: Move, a: nat, b: nat)
    requires a <= |t.x| && b <= |t.y| && m in ViterbiMoves(t) && Fits(m, a, b)
    requires Reaches(t, s, a - m.dx, b - m.dy)
    ensures Reaches(t, s + [m], a, b)
    ensures Total(t, ln, s + [m], a, b) == Add(MoveScore(t, ln, a, b, m), Total(t, ln, s, a - m.dx, b - m.dy))
  {
    hide ViterbiMoves, MoveScore;
    LegalSnoc(ViterbiMoves(t), s, m, a, b);
    assert Init(s + [m]) == s && Last(s + [m]) == m;
  }

  lemma TotalInit(t: Task, ln: real -> real, s: seq<Move>, a: nat, b: nat)
    requires a <= |t.x| && b <= |t.y| && s != [] && Reaches(t, s, a, b)
    ensures Last(s) in ViterbiMoves(t) && Fits(Last(s), a, b)
    ensures Reaches(t, Init(s), a - Last(s).dx, b - Last(s).dy)
    ensures Total(t, ln, s, a, b) ==
            Add(MoveScore(t, ln, a, b, Last(s)), Total(t, ln, Init(s), a - Last(s).dx, b - Last(s).dy))
  {
    hide ViterbiMoves, MoveScore;
  }

  lemma ContinuedTraced(t: Task, ln: real -> real, before: seq<Entry>, segs: seq<seq<Move>>, m: Move, a: nat, b: nat)
    requires a <= |t.x| && b <= |t.y| && m in ViterbiMoves(t) && Fits(m, a, b)
    requires Traced(t, ln, before, segs, a - m.dx, b - m.dy)
    ensures Traced(t, ln, Continued(before, m, MoveScore(t, ln, a, b, m)), Extended(segs, m), a, b)
  {
    hide ViterbiMoves, MoveScore, Reaches, Total;
    forall k | 0 <= k < |before|
      ensures Reaches(t, segs[k] + [m], a, b)
      ensures Total(t, ln, segs[k] + [m], a, b) == Add(MoveScore(t, ln, a, b, m), before[k].score)
    {
      TotalSnoc(t, ln, segs[k], m, a, b);
    }
  }

  lemma {:induction false} CandidatesTraced(t: Task, ln: real -> real, n: nat, q: map<Cell, seq<Entry>>,
                                            segs: map<Cell, seq<seq<Move>>>, a: nat, b: nat, ms: seq<Move>)
    requires a <= |t.x| && b <= |t.y| && Ready(q, a, b) && Ready(segs, a, b) && GoodTable(t, ln, n, q, segs)
    requires forall m :: m in ms ==> m in ViterbiMoves(t)
    ensures Traced(t, ln, Candidates(t, ln, q, a, b, ms), CandidateSegs(segs, a, b, ms), a, b)
  {
    hide ViterbiMoves, MoveScore, Reaches, Total, Dominates, Continued, Extended;
    if ms != [] {
      var m := Last(ms);
      CandidatesTraced(t, ln, n, q, segs, a, b, Init(ms));
      if Fits(m, a, b) {
        var c := (a - m.dx, b - m.dy);
        assert c in q;
        ContinuedTraced(t, ln, q[c], segs[c], m, a, b);
      }
    }
  }

  lemma {:induction false} CandidateSegsAre(t: Task, ln: real -> real, n: nat, q: map<Cell, seq<Entry>>,
                                            segs: map<Cell, seq<seq<Move>>>, a: nat, b: nat, ms: seq<Move>)
    requires a <= |t.x| && b <= |t.y| && Ready(q, a, b) && Ready(segs, a, b) && GoodTable(t, ln, n, q, segs)
    requires Distinct(ms)
    ensures forall s :: s in CandidateSegs(segs, a, b, ms) <==>
              s != [] && Last(s) in ms && Fits(Last(s), a, b) && Init(s) in segs[(a - Last(s).dx, b - Last(s).dy)]
    ensures Distinct(CandidateSegs(segs, a, b, ms))
  {
    hide ViterbiMoves, MoveScore, Reaches, Total, Dominates, Traced, Extended;
    if ms != [] {
      var m := Last(ms);
      assert ms == Init(ms) + [m];
      CandidateSegsAre(t, ln, n, q, segs, a, b, Init(ms));
      if Fits(m, a, b) {
        var c := (a - m.dx, b - m.dy);
        assert c in q;
        ExtendedDistinct(segs[c], m);
        forall s
          ensures s in Extended(segs[c], m) <==> s != [] && Last(s) == m && Init(s) in segs[c]
        {
          ExtendedMember(segs[c], m, s);
        }
        ConcatDistinct(CandidateSegs(segs, a, b, Init(ms)), Extended(segs[c], m));
      }
    }
  }

  // ----- what the candidates cover -----

  /** n candidates in a row score at least that much. */
  ghost predicate HasBlock(cands: seq<Entry>, lo: nat, n: nat, score: Score)
  {
    lo + n <= |cands| && forall k :: lo <= k < lo + n ==> AtLeast(cands[k].score, score)
  }

  lemma AddMonotone(c: Score, a: Score, b: Score)
    requires AtLeast(a, b)
    ensures AtLeast(Add(c, a), Add(c, b))
  {
  }

  lemma {:induction false} CandidateBlock(t: Task, ln: real -> real, n: nat, q: map<Cell, seq<Entry>>,
                                          a: nat, b: nat, ms: seq<Move>, m: Move, score: Score) returns (lo: nat)
    requires a <= |t.x| && b <= |t.y| && Ready(q, a, b) && m in ms && Fits(m, a, b)
    requires Dominated(q[(a - m.dx, b - m.dy)], n, score)
    ensures HasBlock(Candidates(t, ln, q, a, b, ms), lo, n, Add(MoveScore(t, ln, a, b, m), score))
  {
    hide MoveScore;
    var before := Candidates(t, ln, q, a, b, Init(ms));
    if m == Last(ms) {
      lo := |before|;
      var cell := q[(a - m.dx, b - m.dy)];
      forall k | 0 <= k < n
        ensures AtLeast(Add(MoveScore(t, ln, a, b, m), cell[k].score), Add(MoveScore(t, ln, a, b, m), score))
      {
        AddMonotone(MoveScore(t, ln, a, b, m), cell[k].score, score);
      }
    } else {
      assert ms == Init(ms) + [Last(ms)];
      lo := CandidateBlock(t, ln, n, q, a, b, Init(ms), m, score);
    }
  }

  /** A segmentation that is no candidate is matched by n candidates. */
  lemma UncoveredBlock(t: Task, ln: real -> real, n: nat, q: map<Cell, seq<Entry>>, segs: map<Cell, seq<seq<Move>>>,
                       a: nat, b: nat, s: seq<Move>) returns (lo: nat)
    requires a <= |t.x| && b <= |t.y| && Ready(q, a, b) && Ready(segs, a, b) && GoodTable(t, ln, n, q, segs)
    requires Reaches(t, s, a, b) && s != [] && s !in CandidateSegs(segs, a, b, ViterbiMoves(t))
    ensures HasBlock(Candidates(t, ln, q, a, b, ViterbiMoves(t)), lo, n, Total(t, ln, s, a, b))
  {
    hide ViterbiMoves, Total, Reaches, Traced, MoveScore, Candidates, CandidateSegs, HasBlock;
    var m := Last(s);
    TotalInit(t, ln, s, a, b);
    var c := (a - m.dx, b - m.dy);
    assert c in q;
    ViterbiMovesDistinct(t);
    CandidateSegsAre(t, ln, n, q, segs, a, b, ViterbiMoves(t));
    assert Init(s) !in segs[c];
    lo := CandidateBlock(t, ln, n, q, a, b, ViterbiMoves(t), m, Total(t, ln, Init(s), c.0, c.1));
  }

  lemma ViterbiMovesDistinct(t: Task)
    ensures Distinct(ViterbiMoves(t))
  {
    MovesAre(t.par, t.par.eqMap);
  }

  // ----- keeping the n best -----

  /** idx picks the kept entries out of the candidates: all of them when they fit, and
      otherwise n that no other candidate beats. */
  ghost predicate KeepsBest(cands: seq<Entry>, n: nat, kept: seq<Entry>, idx: seq<nat>)
  {
    && |kept| == |idx| == (if |cands| > n then n else |cands|)
    && Distinct(idx)
    && (forall i :: 0 <= i < |idx| ==> idx[i] < |cands| && kept[i] == cands[idx[i]])
    && (forall i, j :: 0 <= i < |idx| && 0 <= j < |cands| && j !in idx ==> AtLeast(kept[i].score, cands[j].score))
  }

  function ScoreAt(cands: seq<Entry>, i: nat): Score
  {
    if i < |cands| then cands[i].score else NegInf
  }

  function ByScore(cands: seq<Entry>): (nat, nat) -> bool
  {
    (i: nat, j: nat) => AtLeast(ScoreAt(cands, i), ScoreAt(cands, j))
  }

  lemma AllKept(cands: seq<Entry>, n: nat)
    requires |cands| <= n
    ensures KeepsBest(cands, n, cands, Positions(|cands|))
  {
    assert forall j :: 0 <= j < |cands| ==> Positions(|cands|)[j] == j;
  }

  lemma FirstSortedKept(cands: seq<Entry>, n: nat, idx: seq<nat>)
    requires n <= |cands| && Permutation(idx, |cands|) && SortedBy(idx, ByScore(cands))
    ensures KeepsBest(cands, n, Arranged(cands, idx[..n]), idx[..n])
  {
    forall i, j | 0 <= i < n && 0 <= j < |cands| && j !in idx[..n]
      ensures AtLeast(cands[idx[i]].score, cands[j].score)
    {
      assert j in idx;
      var k :| 0 <= k < |idx| && idx[k] == j;
      assert k >= n by {
        assert forall l :: 0 <= l < n ==> idx[..n][l] == idx[l];
      }
      assert ByScore(cands)(idx[i], idx[k]);
    }
  }

  /** Some entry of a block is left out when one from outside is kept. */
  lemma BlockLeftOut(cands: seq<Entry>, n: nat, idx: seq<nat>, i: nat, lo: nat) returns (j: nat)
    requires |idx| == n && Distinct(idx) && i < n && lo + n <= |cands| && !(lo <= idx[i] < lo + n)
    ensures lo <= j < lo + n && j !in idx
  {
    var block := seq(n, k requires 0 <= k < n => lo + k);
    var others := idx[..i] + idx[i + 1..];
    var k := Pigeonhole(block, others);
    j := block[k];
    forall l | 0 <= l < n
      ensures idx[l] != j
    {
      if l < i {
        assert others[l] == idx[l];
      } else if l > i {
        assert others[l - 1] == idx[l];
      }
    }
  }

  lemma AtLeastTransitive(a: Score, b: Score, c: Score)
    requires AtLeast(a, b) && AtLeast(b, c)
    ensures AtLeast(a, c)
  {
  }

  /** Keeping the best n cannot lose out against a block of n. */
  lemma BlockDominates(cands: seq<Entry>, n: nat, kept: seq<Entry>, idx: seq<nat>, lo: nat, score: Score)
    requires KeepsBest(cands, n, kept, idx) && HasBlock(cands, lo, n, score)
    ensures Dominated(kept, n, score)
  {
    forall i | 0 <= i < |kept|
      ensures AtLeast(kept[i].score, score)
    {
      if !(lo <= idx[i] < lo + n) {
        var j := BlockLeftOut(cands, n, idx, i, lo);
        AtLeastTransitive(kept[i].score, cands[j].score, score);
      }
    }
  }

  ghost predicate SomeBlock(cands: seq<Entry>, n: nat, score: Score)
  {
    exists lo: nat :: HasBlock(cands, lo, n, score)
  }

  /** Every segmentation into (a, b) is a candidate or is matched by n candidates. */
  ghost predicate Covers(t: Task, ln: real -> real, n: nat, cands: seq<Entry>, csegs: seq<seq<Move>>, a: nat, b: nat)
    requires a <= |t.x| && b <= |t.y|
  {
    forall s :: Reaches(t, s, a, b) && s !in csegs ==> SomeBlock(cands, n, Total(t, ln, s, a, b))
  }

  /** Keeping the best n candidates makes a good cell. */
  lemma KeptCellGood(t: Task, ln: real -> real, n: nat, cands: seq<Entry>, csegs: seq<seq<Move>>,
                     kept: seq<Entry>, idx: seq<nat>, a: nat, b: nat)
    requires a <= |t.x| && b <= |t.y| && Traced(t, ln, cands, csegs, a, b) && Distinct(csegs)
    requires Covers(t, ln, n, cands, csegs, a, b) && KeepsBest(cands, n, kept, idx)
    ensures GoodCell(t, ln, n, kept, Arranged(csegs, idx), a, b)
  {
    hide Reaches, Total, HasBlock;
    var segs := Arranged(csegs, idx);
    forall s | Reaches(t, s, a, b) && s !in segs
      ensures Dominated(kept, n, Total(t, ln, s, a, b))
    {
      if s in csegs {
        var j :| 0 <= j < |csegs| && csegs[j] == s;
        LeftOutDominated(cands, csegs, n, kept, idx, j);
      } else {
        var lo: nat :| HasBlock(cands, lo, n, Total(t, ln, s, a, b));
        BlockDominates(cands, n, kept, idx, lo, Total(t, ln, s, a, b));
      }
    }
  }

  lemma ArrangedMember<T>(s: seq<T>, idx: seq<nat>, j: nat)
    requires (forall i :: 0 <= i < |idx| ==> idx[i] < |s|) && j in idx
    ensures j < |s| && s[j] in Arranged(s, idx)
  {
    var i :| 0 <= i < |idx| && idx[i] == j;
    assert Arranged(s, idx)[i] == s[j];
  }

  lemma LeftOutDominated(cands: seq<Entry>, csegs: seq<seq<Move>>, n: nat, kept: seq<Entry>, idx: seq<nat>, j: nat)
    requires |cands| == |csegs| && KeepsBest(cands, n, kept, idx) && j < |cands|
    requires csegs[j] !in Arranged(csegs, idx)
    ensures Dominated(kept, n, cands[j].score)
  {
    assert j !in idx by {
      if j in idx {
        ArrangedMember(csegs, idx, j);
      }
    }
    MissingIsSmaller(idx, |cands|, j);
  }
}
