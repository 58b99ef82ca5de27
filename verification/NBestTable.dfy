/** Filling the n-best alignment table cell by cell and reading alignments back from it. */
module NBestTable {
  import opened Sequences
  import opened Distinctness
  import opened Segmentation
  import opened AlignmentSums
  import opened Sorting
  import opened NBestAlignment

  // ----- one cell -----

  function Root(): Entry
  {
    Entry(Fin(0.0), -1, -1, -1)
  }

  function CellCandidates(t: Task, ln: real -> real, q: map<Cell, seq<Entry>>, a: nat, b: nat): seq<Entry>
    requires a <= |t.x| && b <= |t.y| && Ready(q, a, b)
  {
    if a == 0 && b == 0 then [Root()] else Candidates(t, ln, q, a, b, ViterbiMoves(t))
  }

  ghost function CellSegs(t: Task, segs: map<Cell, seq<seq<Move>>>, a: nat, b: nat): seq<seq<Move>>
    requires Ready(segs, a, b)
  {
    if a == 0 && b == 0 then [[]] else CandidateSegs(segs, a, b, ViterbiMoves(t))
  }

  /** Only the moves that fit bring candidates. */
  lemma {:induction false} CandidatesFitting(t: Task, ln: real -> real, q: map<Cell, seq<Entry>>,
                                             a: nat, b: nat, ms: seq<Move>)
    requires a <= |t.x| && b <= |t.y| && Ready(q, a, b)
    ensures Candidates(t, ln, q, a, b, Fitting(ms, a, b)) == Candidates(t, ln, q, a, b, ms)
  {
    hide MoveScore, Continued;
    if ms != [] {
      CandidatesFitting(t, ln, q, a, b, Init(ms));
      if Fits(Last(ms), a, b) {
        var fit := Fitting(ms, a, b);
        assert Init(fit) == Fitting(Init(ms), a, b) && Last(fit) == Last(ms);
      } else {
        assert Fitting(ms, a, b) == Fitting(Init(ms), a, b);
        assert Candidates(t, ln, q, a, b, ms) == Candidates(t, ln, q, a, b, Init(ms));
      }
    }
  }

  /** Keeping the n best candidates of a cell whose predecessors are good makes it good. */
  lemma CellGood(t: Task, ln: real -> real, n: nat, q: map<Cell, seq<Entry>>, segs: map<Cell, seq<seq<Move>>>,
                 a: nat, b: nat, kept: seq<Entry>, idx: seq<nat>)
    requires a <= |t.x| && b <= |t.y| && Ready(q, a, b) && Ready(segs, a, b) && GoodTable(t, ln, n, q, segs)
    requires KeepsBest(CellCandidates(t, ln, q, a, b), n, kept, idx)
    ensures |CellSegs(t, segs, a, b)| == |CellCandidates(t, ln, q, a, b)|
    ensures GoodCell(t, ln, n, kept, Arranged(CellSegs(t, segs, a, b), idx), a, b)
  {
    hide ViterbiMoves, Total, HasBlock, Candidates, CandidateSegs, GoodTable, MoveScore, Arranged;
    var cands, csegs := CellCandidates(t, ln, q, a, b), CellSegs(t, segs, a, b);
    ViterbiMovesDistinct(t);
    if a == 0 && b == 0 {
      RootTraced(t, ln);
    } else {
      CandidatesTraced(t, ln, n, q, segs, a, b, ViterbiMoves(t));
      CandidateSegsAre(t, ln, n, q, segs, a, b, ViterbiMoves(t));
    }
    assert Traced(t, ln, cands, csegs, a, b) && Distinct(csegs);
    forall s | Reaches(t, s, a, b) && s !in csegs
      ensures SomeBlock(cands, n, Total(t, ln, s, a, b))
    {
      assert s != [] && !(a == 0 && b == 0);
      var lo := UncoveredBlock(t, ln, n, q, segs, a, b, s);
    }
    assert Covers(t, ln, n, cands, csegs, a, b);
    hide CellCandidates, CellSegs, KeepsBest, Reaches, Traced, Covers;
    KeptCellGood(t, ln, n, cands, csegs, kept, idx, a, b);
  }

  lemma RootTraced(t: Task, ln: real -> real)
    ensures Traced(t, ln, [Root()], [[]], 0, 0)
  {
    var segs: seq<seq<Move>> := [[]];
    assert segs[0] == [];
  }

  // ----- links between cells -----

  /** Entry e of cell (a, b) stands for s: its rank is live in the cell its move came from,
      and s continues what stands there. */
  ghost predicate Linked(q: map<Cell, seq<Entry>>, segs: map<Cell, seq<seq<Move>>>, a: nat, b: nat, e: Entry, s: seq<Move>)
  {
    if a == 0 && b == 0 then s == []
    else
      && e.backX >= 0 && e.backY >= 0 && e.backR >= 0
      && Fits(Move(e.backX, e.backY), a, b)
      && LinkedTo(q, segs, (a - e.backX, b - e.backY), Move(e.backX, e.backY), e.backR, s)
  }

  ghost predicate LinkedTo(q: map<Cell, seq<Entry>>, segs: map<Cell, seq<seq<Move>>>, c: Cell, m: Move, r: nat, s: seq<Move>)
  {
    c in q && c in segs && r < |q[c]| && r < |segs[c]| && s == segs[c][r] + [m]
  }

  ghost predicate LinkedCell(q: map<Cell, seq<Entry>>, segs: map<Cell, seq<seq<Move>>>, a: nat, b: nat,
                             cell: seq<Entry>, cellSegs: seq<seq<Move>>)
  {
    && |cell| == |cellSegs|
    && forall k :: 0 <= k < |cell| ==> Linked(q, segs, a, b, cell[k], cellSegs[k])
  }

  ghost predicate LinkedTable(q: map<Cell, seq<Entry>>, segs: map<Cell, seq<seq<Move>>>)
  {
    q.Keys == segs.Keys && forall c {:trigger q[c]} :: c in q ==> LinkedCell(q, segs, c.0, c.1, q[c], segs[c])
  }

  lemma {:induction false} CandidatesLinked(t: Task, ln: real -> real, q: map<Cell, seq<Entry>>,
                                            segs: map<Cell, seq<seq<Move>>>, a: nat, b: nat, ms: seq<Move>)
    requires a <= |t.x| && b <= |t.y| && Ready(q, a, b) && Ready(segs, a, b) && LinkedTable(q, segs)
    requires a != 0 || b != 0
    ensures LinkedCell(q, segs, a, b, Candidates(t, ln, q, a, b, ms), CandidateSegs(segs, a, b, ms))
  {
    hide MoveScore, Linked, Continued, Extended;
    if ms != [] {
      var m := Last(ms);
      CandidatesLinked(t, ln, q, segs, a, b, Init(ms));
      if Fits(m, a, b) {
        var c := (a - m.dx, b - m.dy);
        assert c in q && LinkedCell(q, segs, c.0, c.1, q[c], segs[c]);
        var score := MoveScore(t, ln, a, b, m);
        ContinuedLinked(q, segs, a, b, m, score);
        ConcatLinked(q, segs, a, b, Candidates(t, ln, q, a, b, Init(ms)), CandidateSegs(segs, a, b, Init(ms)),
                     Continued(q[c], m, score), Extended(segs[c], m));
      }
    }
  }

  lemma ContinuedLinked(q: map<Cell, seq<Entry>>, segs: map<Cell, seq<seq<Move>>>, a: nat, b: nat, m: Move, score: Score)
    requires Fits(m, a, b) && (a - m.dx, b - m.dy) in q && (a - m.dx, b - m.dy) in segs
    requires |q[(a - m.dx, b - m.dy)]| == |segs[(a - m.dx, b - m.dy)]|
    ensures LinkedCell(q, segs, a, b, Continued(q[(a - m.dx, b - m.dy)], m, score), Extended(segs[(a - m.dx, b - m.dy)], m))
  {
  }

  lemma ConcatLinked(q: map<Cell, seq<Entry>>, segs: map<Cell, seq<seq<Move>>>, a: nat, b: nat,
                     p: seq<Entry>, ps: seq<seq<Move>>, r: seq<Entry>, rs: seq<seq<Move>>)
    requires LinkedCell(q, segs, a, b, p, ps) && LinkedCell(q, segs, a, b, r, rs)
    ensures LinkedCell(q, segs, a, b, p + r, ps + rs)
  {
    hide Linked;
  }

  lemma PickedLinked(q: map<Cell, seq<Entry>>, segs: map<Cell, seq<seq<Move>>>, a: nat, b: nat,
                     cell: seq<Entry>, cellSegs: seq<seq<Move>>, idx: seq<nat>, kept: seq<Entry>)
    requires LinkedCell(q, segs, a, b, cell, cellSegs) && |kept| == |idx|
    requires forall i :: 0 <= i < |idx| ==> idx[i] < |cell| && kept[i] == cell[idx[i]]
    ensures LinkedCell(q, segs, a, b, kept, Arranged(cellSegs, idx))
  {
    hide Linked;
  }

  /** Writing a cell that no other cell was reached from keeps all links. */
  lemma LinksStay(q: map<Cell, seq<Entry>>, segs: map<Cell, seq<seq<Move>>>, a: nat, b: nat,
                  cell: seq<Entry>, cellSegs: seq<seq<Move>>)
    requires LinkedTable(q, segs) && LinkedCell(q, segs, a, b, cell, cellSegs)
    requires forall c {:trigger q[c]} :: c in q ==> c.0 < a || (c.0 == a && c.1 <= b)
    ensures LinkedTable(q[(a, b) := cell], segs[(a, b) := cellSegs])
  {
    hide LinkedTo;
    var q1, segs1 := q[(a, b) := cell], segs[(a, b) := cellSegs];
    forall c, k | c in q1 && 0 <= k < |q1[c]|
      ensures |q1[c]| == |segs1[c]| && Linked(q1, segs1, c.0, c.1, q1[c][k], segs1[c][k])
    {
      var e, s := q1[c][k], segs1[c][k];
      if c != (a, b) {
        assert LinkedCell(q, segs, c.0, c.1, q[c], segs[c]);
      }
      assert Linked(q, segs, c.0, c.1, e, s);
      if !(c.0 == 0 && c.1 == 0) {
        LinkStays(q, segs, a, b, cell, cellSegs, (c.0 - e.backX, c.1 - e.backY), Move(e.backX, e.backY), e.backR, s);
      }
    }
    forall c {:trigger q1[c]} | c in q1
      ensures |q1[c]| == |segs1[c]|
    {
      if c != (a, b) {
        assert LinkedCell(q, segs, c.0, c.1, q[c], segs[c]);
      }
    }
  }

  lemma LinkStays(q: map<Cell, seq<Entry>>, segs: map<Cell, seq<seq<Move>>>, a: nat, b: nat,
                  cell: seq<Entry>, cellSegs: seq<seq<Move>>, c: Cell, m: Move, r: nat, s: seq<Move>)
    requires LinkedTo(q, segs, c, m, r, s) && c != (a, b)
    ensures LinkedTo(q[(a, b) := cell], segs[(a, b) := cellSegs], c, m, r, s)
  {
  }

  // ----- filling the table -----

  lemma ByScorePreorder(cands: seq<Entry>)
    ensures TotalPreorder(ByScore(cands))
  {
    forall i: nat, j: nat, k: nat | AtLeast(ScoreAt(cands, i), ScoreAt(cands, j)) && AtLeast(ScoreAt(cands, j), ScoreAt(cands, k))
      ensures AtLeast(ScoreAt(cands, i), ScoreAt(cands, k))
    {
      AtLeastTransitive(ScoreAt(cands, i), ScoreAt(cands, j), ScoreAt(cands, k));
    }
  }

  /** Reduces a cell to its n best entries. */
  method Reduce(cands: seq<Entry>, n: nat) returns (kept: seq<Entry>, ghost idx: seq<nat>)
    ensures KeepsBest(cands, n, kept, idx)
  {
    kept := cands;
    idx := Positions(|cands|);
    AllKept(cands, |cands|);
    if |cands| > n {
      var order := SortedPositions(|cands|, ByScore(cands));
      ByScorePreorder(cands);
      SortedPositionsPermute(|cands|, ByScore(cands));
      FirstSortedKept(cands, n, order);
      idx := order[..n];
      kept := Arranged(cands, order[..n]);
    }
  }

  lemma CandidatesStep(t: Task, ln: real -> real, q: map<Cell, seq<Entry>>, a: nat, b: nat, ms: seq<Move>, k: nat)
    requires a <= |t.x| && b <= |t.y| && Ready(q, a, b) && k < |ms| && Fits(ms[k], a, b)
    ensures Candidates(t, ln, q, a, b, ms[..k + 1]) ==
            Candidates(t, ln, q, a, b, ms[..k])
            + Continued(q[(a - ms[k].dx, b - ms[k].dy)], ms[k], MoveScore(t, ln, a, b, ms[k]))
  {
    hide MoveScore, Continued;
    assert Init(ms[..k + 1]) == ms[..k] && Last(ms[..k + 1]) == ms[k];
  }

  lemma FittingCandidates(t: Task, ln: real -> real, q: map<Cell, seq<Entry>>, a: nat, b: nat, ms: seq<Move>)
    requires a <= |t.x| && b <= |t.y| && Ready(q, a, b) && ms == Fitting(ViterbiMoves(t), a, b)
    ensures a == 0 && b == 0 ==> ms == []
    ensures forall k {:trigger ms[k]} :: 0 <= k < |ms| ==> Fits(ms[k], a, b)
    ensures Candidates(t, ln, q, a, b, ms[..|ms|]) == Candidates(t, ln, q, a, b, ViterbiMoves(t))
  {
    hide ViterbiMoves, Candidates;
    FittingIsFiltered(ViterbiMoves(t), a, b);
    CandidatesFitting(t, ln, q, a, b, ViterbiMoves(t));
    if a == 0 && b == 0 {
      NoneFitting(ViterbiMoves(t), a, b);
    }
    assert ms[..|ms|] == ms;
  }

  /** The candidates of one cell, in the order the loops find them. */
  method FindCandidates(t: Task, ln: real -> real, q: map<Cell, seq<Entry>>, a: nat, b: nat) returns (cands: seq<Entry>)
    requires a <= |t.x| && b <= |t.y| && Ready(q, a, b)
    ensures cands == CellCandidates(t, ln, q, a, b)
  {
    cands := if a == 0 && b == 0 then [Root()] else [];
    var ms := MovesInto(t.par, t.par.eqMap, a, b);
    assert ms == Fitting(ViterbiMoves(t), a, b);
    hide Fitting, ViterbiMoves, MoveScore, Continued, Moves, Candidates;
    FittingCandidates(t, ln, q, a, b, ms);
    var k := 0;
    while k < |ms|
      invariant k <= |ms|
      invariant cands == if a == 0 && b == 0 then [Root()] else Candidates(t, ln, q, a, b, ms[..k])
    {
      CandidatesStep(t, ln, q, a, b, ms, k);
      var before := q[(a - ms[k].dx, b - ms[k].dy)];
      var more := ContinueAll(before, ms[k], MoveScore(t, ln, a, b, ms[k]));
      cands := cands + more;
      k := k + 1;
    }
  }

  /** The innermost loop: one candidate for every entry of the preceding cell. */
  method ContinueAll(before: seq<Entry>, m: Move, score: Score) returns (more: seq<Entry>)
    ensures more == Continued(before, m, score)
  {
    more := [];
    for r := 0 to |before|
      invariant more == Continued(before, m, score)[..r]
    {
      more := more + [Entry(Add(score, before[r].score), m.dx, m.dy, r)];
    }
  }

  /** The cells before (a, b) in the order of the loops. */
  ghost predicate FilledTo(t: Task, q: map<Cell, seq<Entry>>, a: nat, b: nat)
  {
    forall c: Cell {:trigger c in q} :: c in q <==> (c.0 <= |t.x| && c.1 <= |t.y| && (c.0 < a || (c.0 == a && c.1 < b)))
  }

  /** Fills every cell; each ends up with n best segmentations, linked to where they came from. */
  method FillTable(t: Task, ln: real -> real) returns (q: map<Cell, seq<Entry>>, ghost segs: map<Cell, seq<seq<Move>>>)
    ensures FilledTo(t, q, |t.x| + 1, 0)
    ensures GoodTable(t, ln, t.par.nBest, q, segs) && LinkedTable(q, segs)
  {
    q, segs := map[], map[];
    hide GoodTable, LinkedTable, CellCandidates, CellSegs, KeepsBest;
    assert GoodTable(t, ln, t.par.nBest, q, segs) && LinkedTable(q, segs) by {
      EmptyTable(t, ln, t.par.nBest, q, segs);
    }
    var a := 0;
    while a <= |t.x|
      invariant a <= |t.x| + 1
      invariant FilledTo(t, q, a, 0) && q.Keys == segs.Keys
      invariant GoodTable(t, ln, t.par.nBest, q, segs) && LinkedTable(q, segs)
    {
      var b := 0;
      while b <= |t.y|
        invariant b <= |t.y| + 1
        invariant FilledTo(t, q, a, b) && q.Keys == segs.Keys
        invariant GoodTable(t, ln, t.par.nBest, q, segs) && LinkedTable(q, segs)
      {
        assert Ready(q, a, b) && Ready(segs, a, b);
        var cands := FindCandidates(t, ln, q, a, b);
        var kept, idx := Reduce(cands, t.par.nBest);
        ghost var keptSegs := CellWritten(t, ln, q, segs, a, b, kept, idx);
        q, segs := q[(a, b) := kept], segs[(a, b) := keptSegs];
        b := b + 1;
      }
      a := a + 1;
    }
  }

  lemma EmptyTable(t: Task, ln: real -> real, n: nat, q: map<Cell, seq<Entry>>, segs: map<Cell, seq<seq<Move>>>)
    requires q == map[] && segs == map[]
    ensures GoodTable(t, ln, n, q, segs) && LinkedTable(q, segs)
  {
  }

  lemma CellWritten(t: Task, ln: real -> real, q: map<Cell, seq<Entry>>, segs: map<Cell, seq<seq<Move>>>,
                    a: nat, b: nat, kept: seq<Entry>, idx: seq<nat>) returns (keptSegs: seq<seq<Move>>)
    requires a <= |t.x| && b <= |t.y| && FilledTo(t, q, a, b) && Ready(q, a, b) && Ready(segs, a, b)
    requires GoodTable(t, ln, t.par.nBest, q, segs) && LinkedTable(q, segs)
    requires KeepsBest(CellCandidates(t, ln, q, a, b), t.par.nBest, kept, idx)
    ensures GoodTable(t, ln, t.par.nBest, q[(a, b) := kept], segs[(a, b) := keptSegs])
    ensures LinkedTable(q[(a, b) := kept], segs[(a, b) := keptSegs])
  {
    CellGood(t, ln, t.par.nBest, q, segs, a, b, kept, idx);
    keptSegs := Arranged(CellSegs(t, segs, a, b), idx);
    CellLinked(t, ln, q, segs, a, b);
    hide GoodCell, CellCandidates, CellSegs, Arranged, Linked, LinkedCell;
    PickedLinked(q, segs, a, b, CellCandidates(t, ln, q, a, b), CellSegs(t, segs, a, b), idx, kept);
    LinksStay(q, segs, a, b, kept, keptSegs);
  }

  lemma CellLinked(t: Task, ln: real -> real, q: map<Cell, seq<Entry>>, segs: map<Cell, seq<seq<Move>>>, a: nat, b: nat)
    requires a <= |t.x| && b <= |t.y| && Ready(q, a, b) && Ready(segs, a, b) && LinkedTable(q, segs)
    ensures LinkedCell(q, segs, a, b, CellCandidates(t, ln, q, a, b), CellSegs(t, segs, a, b))
  {
    hide ViterbiMoves, Candidates, CandidateSegs, LinkedTable;
    if a != 0 || b != 0 {
      CandidatesLinked(t, ln, q, segs, a, b, ViterbiMoves(t));
    }
  }
}
