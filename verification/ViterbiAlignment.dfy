/** The one-best alignment: a table of best scores with a sentinel for "no proper alignment",
    the backtrace through its two pointer tables, and its agreement with the n-best search. */
module ViterbiAlignment {
  import opened Sequences
  import opened Joining
  import opened Segmentation
  import opened AlignmentSums
  import opened NBestAlignment
  import opened Backtracking

  /** No probability has a positive logarithm. */
  ghost predicate NonePositive(probs: map<Pair, real>, ln: real -> real)
  {
    forall k :: k in probs && probs[k] > 0.0 ==> ln(probs[k]) <= 0.0
  }

  lemma ScoreNotPositive(t: Task, ln: real -> real, a: nat, b: nat, m: Move)
    requires NonePositive(t.probs, ln) && m.dx <= a <= |t.x| && m.dy <= b <= |t.y|
    ensures AtLeast(Fin(0.0), MoveScore(t, ln, a, b, m))
  {
    hide MoveKey;
    var p := ProbAt(t, a, b, m);
    if p > 0.0 {
      assert MoveKey(t, a, b, m) in t.probs;
      Shrinks(ln(p), Max(m.dx, m.dy));
    }
  }

  lemma Shrinks(v: real, k: nat)
    requires v <= 0.0
    ensures v * k as real <= 0.0
  {
  }

  // ----- the table -----

  /** What continuing the best alignment of the preceding cell by m scores. */
  function Via(t: Task, ln: real -> real, q: map<Cell, real>, a: nat, b: nat, m: Move): Score
    requires a <= |t.x| && b <= |t.y| && Fits(m, a, b) && (a - m.dx, b - m.dy) in q
  {
    Add(MoveScore(t, ln, a, b, m), Fin(q[(a - m.dx, b - m.dy)]))
  }

  /** v is the best of the sentinel and what the moves ms score, and back attains it. */
  ghost predicate BestOf(t: Task, ln: real -> real, q: map<Cell, real>, a: nat, b: nat, ms: seq<Move>, v: real, back: Move)
    requires a <= |t.x| && b <= |t.y| && Ready(q, a, b)
  {
    && v >= LOWLOGPROB
    && (forall m :: m in ms && Fits(m, a, b) ==> AtLeast(Fin(v), Via(t, ln, q, a, b, m)))
    && (v > LOWLOGPROB ==> back in ms && Fits(back, a, b) && Via(t, ln, q, a, b, back) == Fin(v))
  }

  /** v is at least the sentinel and the total of every segmentation into (a, b). */
  ghost predicate IsAbove(t: Task, ln: real -> real, a: nat, b: nat, v: real)
    requires a <= |t.x| && b <= |t.y|
  {
    v >= LOWLOGPROB && forall r :: Reaches(t, r, a, b) ==> AtLeast(Fin(v), Total(t, ln, r, a, b))
  }

  ghost predicate Attains(t: Task, ln: real -> real, a: nat, b: nat, v: real, s: seq<Move>)
    requires a <= |t.x| && b <= |t.y|
  {
    Reaches(t, s, a, b) && Total(t, ln, s, a, b) == Fin(v)
  }

  /** v is above the sentinel by at least the score of every move into (a, b). */
  ghost predicate IsLifted(t: Task, ln: real -> real, a: nat, b: nat, v: real)
    requires a <= |t.x| && b <= |t.y|
  {
    forall m :: m in ViterbiMoves(t) && Fits(m, a, b) ==> AtLeast(Fin(v), Add(MoveScore(t, ln, a, b, m), Fin(LOWLOGPROB)))
  }

  /** The best total of a segmentation into (a, b), attained by s, or the sentinel when none is
      proper. */
  ghost predicate IsBest(t: Task, ln: real -> real, a: nat, b: nat, v: real, s: seq<Move>)
    requires a <= |t.x| && b <= |t.y|
  {
    IsAbove(t, ln, a, b, v) && (v > LOWLOGPROB ==> Attains(t, ln, a, b, v, s))
  }

  /** The pointer m of a proper cell: s continues the segmentation of the cell it leads to and
      attains v when that one attains its value. That cell is proper when no score is positive. */
  ghost predicate Points(t: Task, ln: real -> real, q: map<Cell, real>, segs: map<Cell, seq<Move>>, a: nat, b: nat,
                         v: real, m: Move, s: seq<Move>)
    requires a <= |t.x| && b <= |t.y|
  {
    && Fits(m, a, b) && m.dx + m.dy > 0 && (a - m.dx, b - m.dy) in q && (a - m.dx, b - m.dy) in segs
    && (NonePositive(t.probs, ln) ==> q[(a - m.dx, b - m.dy)] > LOWLOGPROB)
    && s == segs[(a - m.dx, b - m.dy)] + [m]
    && (Attains(t, ln, a - m.dx, b - m.dy, q[(a - m.dx, b - m.dy)], segs[(a - m.dx, b - m.dy)]) ==> Attains(t, ln, a, b, v, s))
  }

  ghost predicate GoodBest(t: Task, ln: real -> real, q: map<Cell, real>, segs: map<Cell, seq<Move>>, c: Cell, m: Move)
    requires c in q && c in segs
  {
    && c.0 <= |t.x| && c.1 <= |t.y| && IsAbove(t, ln, c.0, c.1, q[c]) && IsLifted(t, ln, c.0, c.1, q[c])
    && (if c.0 == 0 && c.1 == 0 then segs[c] == [] && q[c] == 0.0
        else q[c] > LOWLOGPROB ==> Points(t, ln, q, segs, c.0, c.1, q[c], m, segs[c]))
  }

  ghost predicate GoodBests(t: Task, ln: real -> real, q: map<Cell, real>, back: map<Cell, Move>, segs: map<Cell, seq<Move>>)
  {
    && q.Keys == segs.Keys == back.Keys
    && forall c {:trigger q[c]} :: c in q ==> GoodBest(t, ln, q, segs, c, back[c])
  }

  lemma BestAt(t: Task, ln: real -> real, q: map<Cell, real>, back: map<Cell, Move>, segs: map<Cell, seq<Move>>, c: Cell)
    requires GoodBests(t, ln, q, back, segs) && c in q
    ensures c in segs && c in back && GoodBest(t, ln, q, segs, c, back[c])
  {
  }

  /** Tries the moves into one cell in the order of the loops. */
  method FindBest(t: Task, ln: real -> real, q: map<Cell, real>, a: nat, b: nat) returns (v: real, back: Move)
    requires a <= |t.x| && b <= |t.y| && Ready(q, a, b) && (a != 0 || b != 0)
    ensures BestOf(t, ln, q, a, b, ViterbiMoves(t), v, back)
  {
    var ms := MovesInto(t.par, t.par.eqMap, a, b);
    FittingIsFiltered(ViterbiMoves(t), a, b);
    assert forall m :: m in ms <==> m in ViterbiMoves(t) && Fits(m, a, b);
    hide ViterbiMoves, Fitting, MoveScore, Moves;
    v, back := LOWLOGPROB, Move(0, 0);
    var k := 0;
    while k < |ms|
      invariant k <= |ms|
      invariant BestOf(t, ln, q, a, b, ms[..k], v, back)
    {
      assert ms[k] in ms;
      BestStep(t, ln, q, a, b, ms, k, v, back);
      var via := Via(t, ln, q, a, b, ms[k]);
      if via.Fin? && via.v > v {
        v, back := via.v, ms[k];
      }
      k := k + 1;
    }
    assert ms[..|ms|] == ms;
  }

  lemma BestStep(t: Task, ln: real -> real, q: map<Cell, real>, a: nat, b: nat, ms: seq<Move>, k: nat, v: real, back: Move)
    requires a <= |t.x| && b <= |t.y| && Ready(q, a, b) && k < |ms| && Fits(ms[k], a, b)
    requires BestOf(t, ln, q, a, b, ms[..k], v, back)
    ensures var via := Via(t, ln, q, a, b, ms[k]);
            if via.Fin? && via.v > v then BestOf(t, ln, q, a, b, ms[..k + 1], via.v, ms[k])
            else BestOf(t, ln, q, a, b, ms[..k + 1], v, back)
  {
    hide MoveScore, Fits;
    assert ms[..k + 1] == ms[..k] + [ms[k]];
  }

  /** The best over the moves bounds all segmentations, and its move points to where it comes
      from. */
  lemma CellIsBest(t: Task, ln: real -> real, q: map<Cell, real>, back: map<Cell, Move>, segs: map<Cell, seq<Move>>,
                   a: nat, b: nat, v: real, m: Move) returns (s: seq<Move>)
    requires a <= |t.x| && b <= |t.y| && Ready(q, a, b) && (a != 0 || b != 0)
    requires GoodBests(t, ln, q, back, segs)
    requires BestOf(t, ln, q, a, b, ViterbiMoves(t), v, m)
    ensures IsAbove(t, ln, a, b, v) && IsLifted(t, ln, a, b, v)
    ensures v > LOWLOGPROB ==> Points(t, ln, q, segs, a, b, v, m, s)
  {
    assert v >= LOWLOGPROB;
    hide ViterbiMoves, MoveScore, Total, NonePositive, GoodBests, Via, BestOf, Points;
    forall r | Reaches(t, r, a, b)
      ensures AtLeast(Fin(v), Total(t, ln, r, a, b))
    {
      BelowBest(t, ln, q, back, segs, a, b, r, v, m);
    }
    BestLifted(t, ln, q, back, segs, a, b, v, m);
    s := [];
    if v > LOWLOGPROB {
      s := BestContinued(t, ln, q, back, segs, a, b, v, m);
    }
  }

  lemma BestLifted(t: Task, ln: real -> real, q: map<Cell, real>, back: map<Cell, Move>, segs: map<Cell, seq<Move>>,
                   a: nat, b: nat, v: real, m: Move)
    requires a <= |t.x| && b <= |t.y| && Ready(q, a, b) && GoodBests(t, ln, q, back, segs)
    requires BestOf(t, ln, q, a, b, ViterbiMoves(t), v, m)
    ensures IsLifted(t, ln, a, b, v)
  {
    hide ViterbiMoves, MoveScore, GoodBests;
    forall n | n in ViterbiMoves(t) && Fits(n, a, b)
      ensures AtLeast(Fin(v), Add(MoveScore(t, ln, a, b, n), Fin(LOWLOGPROB)))
    {
      var c := (a - n.dx, b - n.dy);
      assert c in q;
      BestAt(t, ln, q, back, segs, c);
      AboveSentinel(t, ln, c.0, c.1, q[c]);
      AddMonotone(MoveScore(t, ln, a, b, n), Fin(q[c]), Fin(LOWLOGPROB));
      AtLeastTransitive(Fin(v), Via(t, ln, q, a, b, n), Add(MoveScore(t, ln, a, b, n), Fin(LOWLOGPROB)));
    }
  }

  lemma BestContinued(t: Task, ln: real -> real, q: map<Cell, real>, back: map<Cell, Move>, segs: map<Cell, seq<Move>>,
                      a: nat, b: nat, v: real, m: Move) returns (s: seq<Move>)
    requires a <= |t.x| && b <= |t.y| && Ready(q, a, b) && v > LOWLOGPROB
    requires GoodBests(t, ln, q, back, segs)
    requires BestOf(t, ln, q, a, b, ViterbiMoves(t), v, m)
    ensures Points(t, ln, q, segs, a, b, v, m, s)
  {
    hide ViterbiMoves, MoveScore, Total, NonePositive, GoodBests, Reaches;
    MoveMoves(t, m);
    var c := (a - m.dx, b - m.dy);
    assert c in q;
    BestAt(t, ln, q, back, segs, c);
    if NonePositive(t.probs, ln) {
      ScoreNotPositive(t, ln, a, b, m);
    }
    s := segs[c] + [m];
    if Attains(t, ln, c.0, c.1, q[c], segs[c]) {
      TotalSnoc(t, ln, segs[c], m, a, b);
    }
  }

  lemma MoveMoves(t: Task, m: Move)
    requires m in ViterbiMoves(t)
    ensures m.dx + m.dy > 0
  {
    MovesAre(t.par, t.par.eqMap);
  }

  lemma BelowBest(t: Task, ln: real -> real, q: map<Cell, real>, back: map<Cell, Move>, segs: map<Cell, seq<Move>>,
                  a: nat, b: nat, r: seq<Move>, v: real, m: Move)
    requires a <= |t.x| && b <= |t.y| && Ready(q, a, b) && GoodBests(t, ln, q, back, segs)
    requires Reaches(t, r, a, b) && r != [] && BestOf(t, ln, q, a, b, ViterbiMoves(t), v, m)
    ensures AtLeast(Fin(v), Total(t, ln, r, a, b))
  {
    hide ViterbiMoves, MoveScore, Total, GoodBests, Reaches;
    TotalInit(t, ln, r, a, b);
    var c := (a - Last(r).dx, b - Last(r).dy);
    assert c in q;
    BestAt(t, ln, q, back, segs, c);
    AddMonotone(MoveScore(t, ln, a, b, Last(r)), Fin(q[c]), Total(t, ln, Init(r), c.0, c.1));
    AtLeastTransitive(Fin(v), Via(t, ln, q, a, b, Last(r)), Total(t, ln, r, a, b));
  }

  lemma StartIsBest(t: Task, ln: real -> real)
    ensures IsAbove(t, ln, 0, 0, 0.0) && IsLifted(t, ln, 0, 0, 0.0) && Attains(t, ln, 0, 0, 0.0, [])
  {
    forall r | Reaches(t, r, 0, 0)
      ensures r == []
    {
    }
  }

  lemma BestWritten(t: Task, ln: real -> real, q: map<Cell, real>, back: map<Cell, Move>, segs: map<Cell, seq<Move>>,
                    a: nat, b: nat, v: real, m: Move, s: seq<Move>)
    requires a <= |t.x| && b <= |t.y| && (a, b) !in q
    requires GoodBests(t, ln, q, back, segs) && IsAbove(t, ln, a, b, v) && IsLifted(t, ln, a, b, v)
    requires if a == 0 && b == 0 then s == [] && v == 0.0 else v > LOWLOGPROB ==> Points(t, ln, q, segs, a, b, v, m, s)
    ensures GoodBests(t, ln, q[(a, b) := v], back[(a, b) := m], segs[(a, b) := s])
  {
    hide IsAbove, IsLifted, Points;
    var q1, segs1 := q[(a, b) := v], segs[(a, b) := s];
    forall c | c in q && !(c.0 == 0 && c.1 == 0) && q[c] > LOWLOGPROB
      ensures c.0 <= |t.x| && c.1 <= |t.y| && Points(t, ln, q1, segs1, c.0, c.1, q[c], back[c], segs[c])
    {
      BestAt(t, ln, q, back, segs, c);
      PointsStay(t, ln, q, segs, a, b, v, s, c, q[c], back[c], segs[c]);
    }
    if !(a == 0 && b == 0) && v > LOWLOGPROB {
      PointsStay(t, ln, q, segs, a, b, v, s, (a, b), v, m, s);
    }
  }

  lemma PointsStay(t: Task, ln: real -> real, q: map<Cell, real>, segs: map<Cell, seq<Move>>, a: nat, b: nat, v: real,
                   s: seq<Move>, c: Cell, w: real, m: Move, r: seq<Move>)
    requires (a, b) !in q && c.0 <= |t.x| && c.1 <= |t.y| && Points(t, ln, q, segs, c.0, c.1, w, m, r)
    ensures Points(t, ln, q[(a, b) := v], segs[(a, b) := s], c.0, c.1, w, m, r)
  {
    hide Attains, NonePositive;
  }

  ghost predicate Filled(t: Task, q: map<Cell, real>, a: nat, b: nat)
  {
    forall c: Cell {:trigger c in q} :: c in q <==> (c.0 <= |t.x| && c.1 <= |t.y| && (c.0 < a || (c.0 == a && c.1 < b)))
  }

  /** Writes the next cell. */
  method BestCell(t: Task, ln: real -> real, q: map<Cell, real>, back: map<Cell, Move>, ghost segs: map<Cell, seq<Move>>,
                  a: nat, b: nat)
    returns (q1: map<Cell, real>, back1: map<Cell, Move>, ghost segs1: map<Cell, seq<Move>>)
    requires a <= |t.x| && b <= |t.y| && Filled(t, q, a, b) && GoodBests(t, ln, q, back, segs)
    ensures Filled(t, q1, a, b + 1) && GoodBests(t, ln, q1, back1, segs1)
  {
    hide GoodBests, IsAbove, IsLifted, BestOf, Points;
    var v, m := 0.0, Move(0, 0);
    ghost var s: seq<Move> := [];
    if a > 0 || b > 0 {
      v, m := FindBest(t, ln, q, a, b);
      s := CellIsBest(t, ln, q, back, segs, a, b, v, m);
    } else {
      StartIsBest(t, ln);
    }
    BestWritten(t, ln, q, back, segs, a, b, v, m, s);
    q1, back1, segs1 := q[(a, b) := v], back[(a, b) := m], segs[(a, b) := s];
  }

  method FillBests(t: Task, ln: real -> real)
    returns (q: map<Cell, real>, back: map<Cell, Move>, ghost segs: map<Cell, seq<Move>>)
    ensures Filled(t, q, |t.x| + 1, 0) && GoodBests(t, ln, q, back, segs)
  {
    q, back, segs := map[], map[], map[];
    assert GoodBests(t, ln, q, back, segs) && Filled(t, q, 0, 0);
    hide GoodBests, NonePositive;
    var a := 0;
    while a <= |t.x|
      invariant a <= |t.x| + 1
      invariant Filled(t, q, a, 0) && GoodBests(t, ln, q, back, segs)
    {
      var b := 0;
      while b <= |t.y|
        invariant b <= |t.y| + 1
        invariant Filled(t, q, a, b) && GoodBests(t, ln, q, back, segs)
      {
        q, back, segs := BestCell(t, ln, q, back, segs, a, b);
        b := b + 1;
      }
      a := a + 1;
    }
  }

  // ----- the backtrace -----

  /** What has been read back so far; the whole attains its value if the rest does. */
  ghost predicate Retraced(t: Task, ln: real -> real, q: map<Cell, real>, segs: map<Cell, seq<Move>>, score: real,
                           s0: seq<Move>, a: nat, b: nat, backX: seq<string>, backY: seq<string>)
  {
    && a <= |t.x| && b <= |t.y| && (a, b) in q && (a, b) in segs
    && (NonePositive(t.probs, ln) ==> q[(a, b)] > LOWLOGPROB)
    && (Attains(t, ln, a, b, q[(a, b)], segs[(a, b)]) ==> Attains(t, ln, |t.x|, |t.y|, score, s0))
    && ShowX(t, s0, |t.x|) == ShowX(t, segs[(a, b)], a) + Reversed(backX)
    && ShowY(t, s0, |t.y|) == ShowY(t, segs[(a, b)], b) + Reversed(backY)
  }

  /** One step of the backtrace from a proper cell: it moves. */
  method Retrace(t: Task, ln: real -> real, q: map<Cell, real>, back: map<Cell, Move>, ghost segs: map<Cell, seq<Move>>,
                 ghost score: real, ghost s0: seq<Move>, a: nat, b: nat, backX: seq<string>, backY: seq<string>)
    returns (c: nat, d: nat, moreX: seq<string>, moreY: seq<string>)
    requires GoodBests(t, ln, q, back, segs) && Retraced(t, ln, q, segs, score, s0, a, b, backX, backY)
    requires (a > 0 || b > 0) && q[(a, b)] > LOWLOGPROB
    ensures Retraced(t, ln, q, segs, score, s0, c, d, moreX, moreY) && c + d < a + b
  {
    hide ShowX, ShowY, Reversed, Show, IsAbove, IsLifted, GoodBests, NonePositive, Attains;
    BestAt(t, ln, q, back, segs, (a, b));
    var m := back[(a, b)];
    c, d := a - m.dx, b - m.dy;
    BackStep(t, segs[(c, d)], m, a, b, backX, backY);
    moreX, moreY := ShowMove(t, m, a, b, backX, backY);
  }

  /** The best alignment of a pair, or the sentinel when no proper one exists. With probabilities
      above one a sum can rise above the sentinel from a cell nothing reaches; the backtrace then
      stays in that cell for ever, and ends is false. */
  method ViterbiAlign(t: Task, ln: real -> real)
    returns (ends: bool, score: real, alignX: seq<string>, alignY: seq<string>, ghost found: seq<Move>)
    ensures NonePositive(t.probs, ln) ==> ends
    ensures IsAbove(t, ln, |t.x|, |t.y|, score) && IsLifted(t, ln, |t.x|, |t.y|, score) && (!ends ==> score > LOWLOGPROB)
    ensures ends ==> IsBest(t, ln, |t.x|, |t.y|, score, found)
    ensures ends && score > LOWLOGPROB ==> alignX == ShowX(t, found, |t.x|) && alignY == ShowY(t, found, |t.y|)
    ensures score == LOWLOGPROB ==> ends && alignX == [] && alignY == []
  {
    var q: map<Cell, real>, back: map<Cell, Move>;
    ghost var segs: map<Cell, seq<Move>>;
    q, back, segs := FillBests(t, ln);
    score := q[(|t.x|, |t.y|)];
    found := segs[(|t.x|, |t.y|)];
    BestAt(t, ln, q, back, segs, (|t.x|, |t.y|));
    ends, alignX, alignY := true, [], [];
    hide GoodBests, IsAbove, IsLifted, Attains, NonePositive, ShowX, ShowY, Reversed;
    AboveSentinel(t, ln, |t.x|, |t.y|, score);
    if score <= LOWLOGPROB {
      return;
    }
    var a: nat, b: nat := |t.x|, |t.y|;
    var backX: seq<string>, backY: seq<string> := [], [];
    NothingReversed(ShowX(t, found, |t.x|));
    NothingReversed(ShowY(t, found, |t.y|));
    while a > 0 || b > 0
      invariant Retraced(t, ln, q, segs, score, found, a, b, backX, backY)
      decreases a + b
    {
      if q[(a, b)] <= LOWLOGPROB {
        return false, score, [], [], found;
      }
      a, b, backX, backY := Retrace(t, ln, q, back, segs, score, found, a, b, backX, backY);
    }
    RetracedAll(t, ln, q, back, segs, score, found, backX, backY);
    alignX, alignY := Reversed(backX), Reversed(backY);
  }

  lemma AboveSentinel(t: Task, ln: real -> real, a: nat, b: nat, v: real)
    requires a <= |t.x| && b <= |t.y| && IsAbove(t, ln, a, b, v)
    ensures v >= LOWLOGPROB
  {
  }

  lemma NothingReversed(s: seq<string>)
    ensures s + Reversed([]) == s
  {
  }

  lemma RetracedAll(t: Task, ln: real -> real, q: map<Cell, real>, back: map<Cell, Move>, segs: map<Cell, seq<Move>>,
                    score: real, s0: seq<Move>, backX: seq<string>, backY: seq<string>)
    requires GoodBests(t, ln, q, back, segs) && Retraced(t, ln, q, segs, score, s0, 0, 0, backX, backY)
    ensures Attains(t, ln, |t.x|, |t.y|, score, s0)
    ensures ShowX(t, s0, |t.x|) == Reversed(backX) && ShowY(t, s0, |t.y|) == Reversed(backY)
  {
    BestAt(t, ln, q, back, segs, (0, 0));
    StartIsBest(t, ln);
  }

  /** One-best and n-best agree: there is a proper alignment for both or for neither, and the
      two best scores are the same. */
  lemma AgreesWithNBest(t: Task, ln: real -> real, score: real, found: seq<Move>, scores: seq<real>, all: seq<seq<Move>>)
    requires IsBest(t, ln, |t.x|, |t.y|, score, found)
    requires Shows(t, ln, scores, seq(|all|, k requires 0 <= k < |all| => ShowX(t, all[k], |t.x|)),
                   seq(|all|, k requires 0 <= k < |all| => ShowY(t, all[k], |t.y|)), all)
    requires IsNBest(t, ln, scores, all) && t.par.nBest > 0
    ensures scores == [] <==> score == LOWLOGPROB
    ensures scores != [] ==> scores[0] == score
  {
    hide Reaches, Total, ShowX, ShowY;
    if scores != [] {
      assert Total(t, ln, all[0], |t.x|, |t.y|) == Fin(scores[0]);
      assert score >= scores[0];
      if found in all {
        var k :| 0 <= k < |all| && all[k] == found;
        assert Fin(scores[k]) == Total(t, ln, found, |t.x|, |t.y|);
      } else {
        assert NoneBetter(t.par.nBest, scores, Total(t, ln, found, |t.x|, |t.y|));
      }
    }
  }

  // ----- when the backtrace always ends -----

  /** A word longer than all first words of keys. */
  lemma {:induction false} LongWord(keys: set<Pair>) returns (z: string)
    ensures forall k :: k in keys ==> |k.0| < |z|
    decreases |keys|
  {
    if keys == {} {
      z := [];
    } else {
      var k :| k in keys;
      var rest := LongWord(keys - {k});
      z := rest + k.0 + [' '];
    }
  }

  lemma {:induction false} JoinHolds(ws: seq<string>)
    requires ws != []
    ensures |JoinAll(ws, "")| >= |ws[0]|
  {
    if |ws| > 1 {
      JoinHolds(Init(ws));
    }
  }

  lemma KeyHolds(ws: seq<string>, a: nat, nullChar: string)
    requires 0 < a <= |ws|
    ensures |Key(ws, a, a, nullChar)| >= |ws[0]|
  {
    JoinHolds(ws[0..a]);
  }

  lemma WordKey(ws: seq<string>, e: nat, nullChar: string)
    requires 0 < e <= |ws|
    ensures Key(ws, e, 1, nullChar) == ws[e - 1]
  {
    var w := ws[e - 1..e];
    assert w == [ws[e - 1]] && Init(w) == [] && Last(w) == ws[e - 1];
    assert JoinAll(w, "") == ws[e - 1];
  }

  /** A segmentation cannot avoid the first token, and when that is a word no key holds it has no
      score. */
  lemma {:induction false} DeadStart(t: Task, ln: real -> real, r: seq<Move>, a: nat, b: nat)
    requires 0 < a <= |t.x| && b <= |t.y| && Reaches(t, r, a, b)
    requires forall k :: k in t.probs ==> |k.0| < |t.x[0]|
    ensures Total(t, ln, r, a, b) == NegInf
    decreases |r|
  {
    hide ViterbiMoves;
    TotalInit(t, ln, r, a, b);
    var m := Last(r);
    if a - m.dx > 0 {
      DeadStart(t, ln, Init(r), a - m.dx, b - m.dy);
    } else {
      KeyHolds(t.x, a, t.par.nullChar);
      assert MoveKey(t, a, b, m) !in t.probs;
    }
  }

  /** When some probability has a positive logarithm, some pair of words lifts the score above the
      sentinel though no segmentation has it, so the backtrace cannot end. */
  lemma PositiveNeverEnds(probs: map<Pair, real>, par: Param, ln: real -> real, k: Pair) returns (t: Task)
    requires k in probs && probs[k] > 0.0 && ln(probs[k]) > 0.0 && par.maxX > 0 && par.maxY > 0
    ensures t.probs == probs && t.par == par
    ensures forall v, s :: IsLifted(t, ln, |t.x|, |t.y|, v) ==> !IsBest(t, ln, |t.x|, |t.y|, v, s)
  {
    var z := LongWord(probs.Keys);
    t := Task([z, k.0], [k.1], par, probs);
    MovesAre(par, par.eqMap);
    var m := Move(1, 1);
    assert m in ViterbiMoves(t) && Fits(m, 2, 1);
    WordKey(t.x, 2, par.nullChar);
    WordKey(t.y, 1, par.nullChar);
    forall v, s | IsLifted(t, ln, 2, 1, v)
      ensures !IsBest(t, ln, 2, 1, v, s)
    {
      hide Total, MoveScore, Moves, Reaches;
      if Reaches(t, s, 2, 1) {
        DeadStart(t, ln, s, 2, 1);
      }
      LiftedAbove(t, ln, m, v, k);
    }
  }

  lemma LiftedAbove(t: Task, ln: real -> real, m: Move, v: real, k: Pair)
    requires |t.x| == 2 && |t.y| == 1 && m == Move(1, 1) && m in ViterbiMoves(t)
    requires IsLifted(t, ln, 2, 1, v) && k in t.probs && MoveKey(t, 2, 1, m) == k && t.probs[k] > 0.0 && ln(t.probs[k]) > 0.0
    ensures v > LOWLOGPROB
  {
    assert Fits(m, 2, 1);
    assert AtLeast(Fin(v), Add(MoveScore(t, ln, 2, 1, m), Fin(LOWLOGPROB)));
  }
}
