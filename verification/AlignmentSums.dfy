/** Forward and backward sums over all joint segmentations, and the conservation law of the
    expected counts. */
module AlignmentSums {
  import opened Sequences
  import opened Arithmetic
  import opened Distinctness
  import opened Joining
  import opened Segmentation

  type Pair = (string, string)

  /** The two token sequences, the parameters and the current probability table. */
  datatype Task = Task(x: seq<string>, y: seq<string>, par: Param, probs: map<Pair, real>)

  /** A table lookup; a missing entry reads as zero. */
  function Lookup(table: map<Pair, real>, key: Pair): real
  {
    if key in table then table[key] else 0.0
  }

  /** Table key of the move m into cell (a, b). */
  function MoveKey(t: Task, a: nat, b: nat, m: Move): Pair
    requires m.dx <= a <= |t.x| && m.dy <= b <= |t.y|
  {
    (Key(t.x, a, m.dx, t.par.nullChar), Key(t.y, b, m.dy, t.par.nullChar))
  }

  /** Probability of the move m into cell (a, b). */
  function ProbAt(t: Task, a: nat, b: nat, m: Move): real
    requires m.dx <= a <= |t.x| && m.dy <= b <= |t.y|
  {
    Lookup(t.probs, MoveKey(t, a, b, m))
  }

  function EMMoves(t: Task): seq<Move>
  {
    Moves(t.par, true)
  }

  /** Expectation tries all pairs of stretches, whatever the setting for equal lengths. */
  lemma EMMovesAre(t: Task, m: Move)
    ensures m in EMMoves(t) <==>
              || (m.dy == 0 && t.par.delX && 1 <= m.dx <= t.par.maxX)
              || (m.dx == 0 && t.par.delY && 1 <= m.dy <= t.par.maxY)
              || (1 <= m.dx <= t.par.maxX && 1 <= m.dy <= t.par.maxY)
  {
    MovesAre(t.par, true);
  }

  // ----- forward and backward -----

  /** Forward sum of cell (a, b). */
  ghost function Alpha(t: Task, a: nat, b: nat): real
    requires a <= |t.x| && b <= |t.y|
    decreases a + b, |EMMoves(t)| + 1
  {
    if a == 0 && b == 0 then 1.0 else InSum(t, a, b, EMMoves(t))
  }

  /** What the moves ms bring into cell (a, b). */
  ghost function InSum(t: Task, a: nat, b: nat, ms: seq<Move>): real
    requires a <= |t.x| && b <= |t.y|
    decreases a + b, |ms|
  {
    if ms == [] then 0.0
    else
      InSum(t, a, b, Init(ms))
      + (if Fits(Last(ms), a, b)
         then ProbAt(t, a, b, Last(ms)) * Alpha(t, a - Last(ms).dx, b - Last(ms).dy) else 0.0)
  }

  /** The move m can leave cell (a, b). */
  predicate Leaves(t: Task, m: Move, a: nat, b: nat)
  {
    0 < m.dx + m.dy && a + m.dx <= |t.x| && b + m.dy <= |t.y|
  }

  /** Backward sum of cell (a, b). */
  ghost function Beta(t: Task, a: nat, b: nat): real
    requires a <= |t.x| && b <= |t.y|
    decreases |t.x| - a + |t.y| - b, |EMMoves(t)| + 1
  {
    if a == |t.x| && b == |t.y| then 1.0 else OutSum(t, a, b, EMMoves(t))
  }

  ghost function OutSum(t: Task, a: nat, b: nat, ms: seq<Move>): real
    requires a <= |t.x| && b <= |t.y|
    decreases |t.x| - a + |t.y| - b, |ms|
  {
    if ms == [] then 0.0
    else
      OutSum(t, a, b, Init(ms))
      + (if Leaves(t, Last(ms), a, b)
         then ProbAt(t, a + Last(ms).dx, b + Last(ms).dy, Last(ms))
              * Beta(t, a + Last(ms).dx, b + Last(ms).dy) else 0.0)
  }

  // ----- the forward sum as a sum over segmentations -----

  ghost function Product(t: Task, s: seq<Move>, a: nat, b: nat): real
    requires a <= |t.x| && b <= |t.y| && Legal(EMMoves(t), s, a, b)
    decreases |s|
  {
    if s == [] then 1.0
    else
      var m := Last(s);
      ProbAt(t, a, b, m) * Product(t, Init(s), a - m.dx, b - m.dy)
  }

  /** Every segmentation that reaches cell (a, b), once. */
  ghost function Segmentations(t: Task, a: nat, b: nat): seq<seq<Move>>
    decreases a + b, |EMMoves(t)| + 1
  {
    if a == 0 && b == 0 then [[]] else SegmentationsBy(t, a, b, EMMoves(t))
  }

  ghost function SegmentationsBy(t: Task, a: nat, b: nat, ms: seq<Move>): seq<seq<Move>>
    decreases a + b, |ms|
  {
    if ms == [] then []
    else
      SegmentationsBy(t, a, b, Init(ms))
      + (if Fits(Last(ms), a, b)
         then Extended(Segmentations(t, a - Last(ms).dx, b - Last(ms).dy), Last(ms)) else [])
  }

  ghost function Extended(ss: seq<seq<Move>>, m: Move): (r: seq<seq<Move>>)
    ensures |r| == |ss|
  {
    seq(|ss|, k requires 0 <= k < |ss| => ss[k] + [m])
  }

  lemma ExtendedMember(ss: seq<seq<Move>>, m: Move, s: seq<Move>)
    ensures s in Extended(ss, m) <==> s != [] && Last(s) == m && Init(s) in ss
  {
    if s in Extended(ss, m) {
      var k :| 0 <= k < |ss| && Extended(ss, m)[k] == s;
      assert Init(ss[k] + [m]) == ss[k];
    }
    if s != [] && Last(s) == m && Init(s) in ss {
      var k :| 0 <= k < |ss| && ss[k] == Init(s);
      assert Extended(ss, m)[k] == Init(s) + [m] == s;
    }
  }

  lemma ExtendedDistinct(ss: seq<seq<Move>>, m: Move)
    requires Distinct(ss)
    ensures Distinct(Extended(ss, m))
  {
    forall i, j | 0 <= i < j < |ss|
      ensures Extended(ss, m)[i] != Extended(ss, m)[j]
    {
      assert Init(Extended(ss, m)[i]) == ss[i] && Init(Extended(ss, m)[j]) == ss[j];
    }
  }

  /** The legal segmentations of (a, b) whose last move is in ms. */
  ghost predicate ReachesBy(t: Task, s: seq<Move>, a: nat, b: nat, ms: seq<Move>)
  {
    s != [] && Last(s) in ms && Legal(EMMoves(t), s, a, b)
  }

  lemma {:induction false} SegmentationsByAre(t: Task, a: nat, b: nat, ms: seq<Move>)
    requires Distinct(ms) && forall m :: m in ms ==> m in EMMoves(t)
    ensures forall s :: s in SegmentationsBy(t, a, b, ms) <==> ReachesBy(t, s, a, b, ms)
    ensures Distinct(SegmentationsBy(t, a, b, ms))
    decreases a + b, |ms|
  {
    hide EMMoves, ProbAt;
    if ms != [] {
      var m := Last(ms);
      assert ms == Init(ms) + [m];
      SegmentationsByAre(t, a, b, Init(ms));
      if Fits(m, a, b) {
        var before := Segmentations(t, a - m.dx, b - m.dy);
        SegmentationsAre(t, a - m.dx, b - m.dy);
        ExtendedDistinct(before, m);
        forall s
          ensures s in Extended(before, m) <==> s != [] && Last(s) == m && Legal(EMMoves(t), s, a, b)
        {
          ExtendedMember(before, m, s);
        }
        ConcatDistinct(SegmentationsBy(t, a, b, Init(ms)), Extended(before, m));
      }
    }
  }

  /** Segmentations lists exactly the legal move sequences into (a, b), each once. */
  lemma {:induction false} SegmentationsAre(t: Task, a: nat, b: nat)
    ensures forall s :: s in Segmentations(t, a, b) <==> Legal(EMMoves(t), s, a, b)
    ensures Distinct(Segmentations(t, a, b))
    decreases a + b, |EMMoves(t)| + 1
  {
    if a == 0 && b == 0 {
      forall s | Legal(EMMoves(t), s, 0, 0)
        ensures s == []
      {
      }
    } else {
      MovesAre(t.par, true);
      SegmentationsByAre(t, a, b, EMMoves(t));
    }
  }

  ghost predicate AllLegal(t: Task, ss: seq<seq<Move>>, a: nat, b: nat)
  {
    forall k :: 0 <= k < |ss| ==> Legal(EMMoves(t), ss[k], a, b)
  }

  ghost function ProductSum(t: Task, ss: seq<seq<Move>>, a: nat, b: nat): real
    requires a <= |t.x| && b <= |t.y| && AllLegal(t, ss, a, b)
  {
    if ss == [] then 0.0
    else ProductSum(t, Init(ss), a, b) + Product(t, Last(ss), a, b)
  }

  lemma {:induction false} ProductSumConcat(t: Task, p: seq<seq<Move>>, q: seq<seq<Move>>, a: nat, b: nat)
    requires a <= |t.x| && b <= |t.y| && AllLegal(t, p, a, b) && AllLegal(t, q, a, b)
    ensures ProductSum(t, p + q, a, b) == ProductSum(t, p, a, b) + ProductSum(t, q, a, b)
  {
    hide EMMoves, ProbAt;
    if q == [] {
      assert p + q == p;
    } else {
      ProductSumConcat(t, p, Init(q), a, b);
      assert Init(p + q) == p + Init(q);
    }
  }

  lemma ExtendedLegal(t: Task, ss: seq<seq<Move>>, m: Move, a: nat, b: nat)
    requires Fits(m, a, b) && m in EMMoves(t) && AllLegal(t, ss, a - m.dx, b - m.dy)
    ensures AllLegal(t, Extended(ss, m), a, b)
  {
    hide EMMoves, ProbAt;
    forall k | 0 <= k < |ss|
      ensures Legal(EMMoves(t), Extended(ss, m)[k], a, b)
    {
      LegalSnoc(EMMoves(t), ss[k], m, a, b);
    }
  }

  lemma ProductSnoc(t: Task, s: seq<Move>, m: Move, a: nat, b: nat)
    requires a <= |t.x| && b <= |t.y| && Fits(m, a, b) && m in EMMoves(t)
    requires Legal(EMMoves(t), s, a - m.dx, b - m.dy) && Legal(EMMoves(t), s + [m], a, b)
    ensures Product(t, s + [m], a, b) == ProbAt(t, a, b, m) * Product(t, s, a - m.dx, b - m.dy)
  {
    hide EMMoves, ProbAt;
    assert Init(s + [m]) == s && Last(s + [m]) == m;
  }

  lemma {:induction false} ProductSumExtended(t: Task, ss: seq<seq<Move>>, m: Move, a: nat, b: nat)
    requires a <= |t.x| && b <= |t.y| && Fits(m, a, b) && m in EMMoves(t)
    requires AllLegal(t, ss, a - m.dx, b - m.dy) && AllLegal(t, Extended(ss, m), a, b)
    ensures ProductSum(t, Extended(ss, m), a, b) == ProbAt(t, a, b, m) * ProductSum(t, ss, a - m.dx, b - m.dy)
  {
    hide EMMoves, ProbAt;
    if ss != [] {
      var s := Last(ss);
      assert Init(Extended(ss, m)) == Extended(Init(ss), m) && Last(Extended(ss, m)) == s + [m];
      ProductSumExtended(t, Init(ss), m, a, b);
      hide Product, Legal;
      ProductSnoc(t, s, m, a, b);
      Distribute(ProbAt(t, a, b, m), ProductSum(t, Init(ss), a - m.dx, b - m.dy), Product(t, s, a - m.dx, b - m.dy));
    }
  }

  lemma PathSumStep(t: Task, before: seq<seq<Move>>, m: Move, rest: seq<seq<Move>>, a: nat, b: nat)
    requires a <= |t.x| && b <= |t.y| && Fits(m, a, b) && m in EMMoves(t)
    requires AllLegal(t, before, a - m.dx, b - m.dy) && AllLegal(t, rest, a, b)
    ensures AllLegal(t, rest + Extended(before, m), a, b)
    ensures ProductSum(t, rest + Extended(before, m), a, b) ==
            ProductSum(t, rest, a, b) + ProbAt(t, a, b, m) * ProductSum(t, before, a - m.dx, b - m.dy)
  {
    hide EMMoves, ProbAt, ProductSum, Extended, Legal;
    ExtendedLegal(t, before, m, a, b);
    ProductSumExtended(t, before, m, a, b);
    ProductSumConcat(t, rest, Extended(before, m), a, b);
  }

  lemma InSumStep(t: Task, a: nat, b: nat, ms: seq<Move>)
    requires a <= |t.x| && b <= |t.y| && ms != [] && Last(ms) in EMMoves(t) && Fits(Last(ms), a, b)
    requires var (c, d) := (a - Last(ms).dx, b - Last(ms).dy);
             AllLegal(t, Segmentations(t, c, d), c, d) && Alpha(t, c, d) == ProductSum(t, Segmentations(t, c, d), c, d)
    requires var ss := SegmentationsBy(t, a, b, Init(ms));
             AllLegal(t, ss, a, b) && InSum(t, a, b, Init(ms)) == ProductSum(t, ss, a, b)
    ensures AllLegal(t, SegmentationsBy(t, a, b, ms), a, b)
    ensures InSum(t, a, b, ms) == ProductSum(t, SegmentationsBy(t, a, b, ms), a, b)
  {
    hide EMMoves, ProbAt, ProductSum, Alpha, Segmentations, Extended, AllLegal;
    var m := Last(ms);
    PathSumStep(t, Segmentations(t, a - m.dx, b - m.dy), m, SegmentationsBy(t, a, b, Init(ms)), a, b);
  }

  lemma {:induction false} InSumIsPathSum(t: Task, a: nat, b: nat, ms: seq<Move>)
    requires a <= |t.x| && b <= |t.y| && forall m :: m in ms ==> m in EMMoves(t)
    ensures AllLegal(t, SegmentationsBy(t, a, b, ms), a, b)
    ensures InSum(t, a, b, ms) == ProductSum(t, SegmentationsBy(t, a, b, ms), a, b)
    decreases a + b, |ms|
  {
    hide EMMoves, ProbAt, Alpha, Segmentations, Product, Legal;
    if ms != [] {
      var m := Last(ms);
      InSumIsPathSum(t, a, b, Init(ms));
      if Fits(m, a, b) {
        AlphaIsPathSum(t, a - m.dx, b - m.dy);
        hide AllLegal, ProductSum, InSum, SegmentationsBy;
        InSumStep(t, a, b, ms);
      } else {
        assert SegmentationsBy(t, a, b, ms) == SegmentationsBy(t, a, b, Init(ms));
      }
    }
  }

  /** The forward sum of a cell is the sum, over all segmentations that reach it, of the
      product of their move probabilities. */
  lemma {:induction false} AlphaIsPathSum(t: Task, a: nat, b: nat)
    requires a <= |t.x| && b <= |t.y|
    ensures AllLegal(t, Segmentations(t, a, b), a, b)
    ensures Alpha(t, a, b) == ProductSum(t, Segmentations(t, a, b), a, b)
    decreases a + b, |EMMoves(t)| + 1
  {
    if a == 0 && b == 0 {
      var none: seq<seq<Move>> := [[]];
      assert Init(none) == [];
    } else {
      InSumIsPathSum(t, a, b, EMMoves(t));
    }
  }
}
