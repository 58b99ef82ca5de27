/** The many-to-many aligner as an object: its two tables and the steps of training. */
module Aligner {
  import opened Sequences
  import opened Arithmetic
  import opened Segmentation
  import opened AlignmentSums
  import opened AlignmentFlow
  import opened AlignmentCounts
  import opened AlignmentSweeps
  import opened NBestAlignment
  import opened Backtracking
  import opened ViterbiAlignment
  import opened Maximization

  // ----- training keeps both tables nonnegative -----

  lemma ProbNotNegative(t: Task, a: nat, b: nat, m: Move)
    requires NoneNegative(t.probs) && m.dx <= a <= |t.x| && m.dy <= b <= |t.y|
    ensures ProbAt(t, a, b, m) >= 0.0
  {
    hide MoveKey;
  }

  lemma {:induction false} InSumNotNegative(t: Task, a: nat, b: nat, ms: seq<Move>)
    requires NoneNegative(t.probs) && a <= |t.x| && b <= |t.y|
    ensures InSum(t, a, b, ms) >= 0.0
    decreases a + b, |ms|
  {
    hide Alpha, ProbAt, NoneNegative;
    if ms != [] {
      var m := Last(ms);
      InSumNotNegative(t, a, b, Init(ms));
      if Fits(m, a, b) {
        AlphaNotNegative(t, a - m.dx, b - m.dy);
        ProbNotNegative(t, a, b, m);
        ProductNotNegative(ProbAt(t, a, b, m), Alpha(t, a - m.dx, b - m.dy));
      }
    }
  }

  lemma {:induction false} AlphaNotNegative(t: Task, a: nat, b: nat)
    requires NoneNegative(t.probs) && a <= |t.x| && b <= |t.y|
    ensures Alpha(t, a, b) >= 0.0
    decreases a + b, |EMMoves(t)| + 1
  {
    hide EMMoves, InSum, NoneNegative;
    if a != 0 || b != 0 {
      InSumNotNegative(t, a, b, EMMoves(t));
    }
  }

  lemma {:induction false} OutSumNotNegative(t: Task, a: nat, b: nat, ms: seq<Move>)
    requires NoneNegative(t.probs) && a <= |t.x| && b <= |t.y|
    ensures OutSum(t, a, b, ms) >= 0.0
    decreases |t.x| - a + |t.y| - b, |ms|
  {
    hide Beta, ProbAt, NoneNegative;
    if ms != [] {
      var m := Last(ms);
      OutSumNotNegative(t, a, b, Init(ms));
      if Leaves(t, m, a, b) {
        BetaNotNegative(t, a + m.dx, b + m.dy);
        ProbNotNegative(t, a + m.dx, b + m.dy, m);
        ProductNotNegative(ProbAt(t, a + m.dx, b + m.dy, m), Beta(t, a + m.dx, b + m.dy));
      }
    }
  }

  lemma {:induction false} BetaNotNegative(t: Task, a: nat, b: nat)
    requires NoneNegative(t.probs) && a <= |t.x| && b <= |t.y|
    ensures Beta(t, a, b) >= 0.0
    decreases |t.x| - a + |t.y| - b, |EMMoves(t)| + 1
  {
    hide EMMoves, OutSum, NoneNegative;
    if a != |t.x| || b != |t.y| {
      OutSumNotNegative(t, a, b, EMMoves(t));
    }
  }

  lemma AmountNotNegative(t: Task, total: real, a: nat, b: nat, m: Move)
    requires NoneNegative(t.probs) && a <= |t.x| && b <= |t.y| && Fits(m, a, b) && total > 0.0
    ensures InMass(t, m, a, b) / total >= 0.0
  {
    hide Alpha, Beta, ProbAt, NoneNegative, InMass;
    MassIs(t, m, a, b);
    AlphaNotNegative(t, a - m.dx, b - m.dy);
    ProbNotNegative(t, a, b, m);
    BetaNotNegative(t, a, b);
    var al, p, be := Alpha(t, a - m.dx, b - m.dy), ProbAt(t, a, b, m), Beta(t, a, b);
    ProductNotNegative(al, p);
    ProductNotNegative(al * p, be);
    RatioNotNegative(al * p * be, total);
  }

  lemma RatioNotNegative(x: real, d: real)
    requires x >= 0.0 && d > 0.0
    ensures x / d >= 0.0
  {
  }

  ghost predicate Growing(us: seq<Update>)
  {
    forall k :: 0 <= k < |us| ==> us[k].amount >= 0.0
  }

  lemma {:induction false} CellUpdatesGrow(t: Task, total: real, a: nat, b: nat, ms: seq<Move>)
    requires NoneNegative(t.probs) && a <= |t.x| && b <= |t.y| && total > 0.0
    ensures Growing(CellUpdates(t, total, a, b, ms))
  {
    hide MoveKey, InMass, NoneNegative;
    if ms != [] {
      CellUpdatesGrow(t, total, a, b, Init(ms));
      if Fits(Last(ms), a, b) {
        AmountNotNegative(t, total, a, b, Last(ms));
      }
    }
  }

  lemma {:induction false} RowUpdatesGrow(t: Task, total: real, a: nat, k: nat)
    requires NoneNegative(t.probs) && a <= |t.x| && k <= |t.y| + 1 && total > 0.0
    ensures Growing(RowUpdates(t, total, a, k))
  {
    hide CellUpdates, NoneNegative, EMMoves;
    if k > 0 {
      RowUpdatesGrow(t, total, a, k - 1);
      CellUpdatesGrow(t, total, a, k - 1, EMMoves(t));
    }
  }

  lemma {:induction false} GridUpdatesGrow(t: Task, total: real, k: nat)
    requires NoneNegative(t.probs) && k <= |t.x| + 1 && total > 0.0
    ensures Growing(GridUpdates(t, total, k))
  {
    hide RowUpdates, NoneNegative;
    if k > 0 {
      GridUpdatesGrow(t, total, k - 1);
      RowUpdatesGrow(t, total, k - 1, |t.y| + 1);
    }
  }

  lemma {:induction false} CountsStayNonNegative(counts: map<Pair, real>, us: seq<Update>)
    requires NoneNegative(counts) && Growing(us)
    ensures NoneNegative(AddAll(counts, us))
  {
    if us != [] {
      CountsStayNonNegative(counts, Init(us));
    }
  }

  /** One expectation step cannot make a count negative. */
  lemma ExpectationNonNegative(t: Task, counts: map<Pair, real>)
    requires NoneNegative(t.probs) && NoneNegative(counts) && Alpha(t, |t.x|, |t.y|) != 0.0
    ensures NoneNegative(AddAll(counts, GridUpdates(t, Alpha(t, |t.x|, |t.y|), |t.x| + 1)))
  {
    hide NoneNegative, Alpha, GridUpdates, AddAll, Growing;
    AlphaNotNegative(t, |t.x|, |t.y|);
    GridUpdatesGrow(t, Alpha(t, |t.x|, |t.y|), |t.x| + 1);
    CountsStayNonNegative(counts, GridUpdates(t, Alpha(t, |t.x|, |t.y|), |t.x| + 1));
  }

  /** No probability exceeds one. */
  predicate AtMostOne(probs: map<Pair, real>)
  {
    forall k :: k in probs ==> probs[k] <= 1.0
  }

  lemma MaximizedInRange(fn: MaxFn, counts: map<Pair, real>, probs: map<Pair, real>)
    requires IsNormalisedFrom(fn, counts, probs) && NoneNegative(counts)
    ensures NoneNegative(probs) && AtMostOne(probs)
  {
    hide Marginal, Quotient;
    forall k | k in probs
      ensures 0.0 <= probs[k] <= 1.0
    {
      ProbabilitiesInRange(fn, counts, probs, k);
    }
  }

  class MmEM {
    var probs: map<Pair, real>
    var counts: map<Pair, real>

    ghost predicate Valid()
      reads this
    {
      NoneNegative(probs) && NoneNegative(counts)
    }

    constructor ()
      ensures Valid() && probs == map[] && counts == map[]
    {
      probs, counts := map[], map[];
    }

    /** Adds the expected counts of one pair; refuses a pair that has no probable segmentation. */
    method Expectation(par: Param, x: seq<string>, y: seq<string>) returns (ok: bool)
      requires Valid()
      modifies this`counts
      ensures Valid()
      ensures ok <==> Alpha(Task(x, y, par, probs), |x|, |y|) != 0.0
      ensures counts == if !ok then old(counts) else
                AddAll(old(counts), GridUpdates(Task(x, y, par, probs), Alpha(Task(x, y, par, probs), |x|, |y|), |x| + 1))
    {
      hide *;
      var t := Task(x, y, par, probs);
      var alpha := ForwardEval(t);
      var beta := BackwardEval(t);
      WholeTables(t, alpha, beta, |x|, |y|);
      var total := alpha[(|x|, |y|)];
      if total == 0.0 {
        return false;
      }
      ValidMeans(this);
      ExpectationNonNegative(t, counts);
      counts := CountGrid(t, alpha, beta, total, counts);
      ValidMeans(this);
      ok := true;
    }

    /** Turns the counts into probabilities and clears them. */
    method Maximization(fn: MaxFn) returns (ok: bool)
      requires Valid()
      modifies this
      ensures Valid()
      ensures ok <==> !exists k :: k in old(counts) && Unusable(old(counts), k)
      ensures ok ==> IsNormalisedFrom(fn, old(counts), probs) && AtMostOne(probs) && counts == map[]
      ensures !ok ==> probs == old(probs) && counts == old(counts)
    {
      hide Unusable, IsNormalisedFrom, AtMostOne;
      var r := Maximize(fn, counts);
      ok := r.Success?;
      if ok {
        MaximizedInRange(fn, counts, r.value);
        probs, counts := r.value, map[];
      }
    }

    /** The n best alignments under the current probabilities. */
    method NViterbi(par: Param, x: seq<string>, y: seq<string>, ln: real -> real)
      returns (scores: seq<real>, alignX: seq<seq<string>>, alignY: seq<seq<string>>)
      ensures ShowsNBest(Task(x, y, par, probs), ln, scores, alignX, alignY)
    {
      hide *;
      scores, alignX, alignY := NViterbiAlign(Task(x, y, par, probs), ln);
    }

    /** The best alignment under the current probabilities. When they are at most one, as
        Maximization leaves them, the backtrace ends. */
    method Viterbi(par: Param, x: seq<string>, y: seq<string>, ln: real -> real)
      returns (ends: bool, score: real, alignX: seq<string>, alignY: seq<string>, ghost found: seq<Move>)
      requires Valid()
      ensures AtMostOne(probs) && (forall p: real :: 0.0 < p <= 1.0 ==> ln(p) <= 0.0) ==> ends
      ensures IsAbove(Task(x, y, par, probs), ln, |x|, |y|, score)
      ensures IsLifted(Task(x, y, par, probs), ln, |x|, |y|, score) && (!ends ==> score > LOWLOGPROB)
      ensures ends ==> IsBest(Task(x, y, par, probs), ln, |x|, |y|, score, found)
      ensures ends && score > LOWLOGPROB ==>
                alignX == ShowX(Task(x, y, par, probs), found, |x|) && alignY == ShowY(Task(x, y, par, probs), found, |y|)
      ensures score == LOWLOGPROB ==> ends && alignX == [] && alignY == []
    {
      hide IsAbove, IsLifted, IsBest, ShowX, ShowY;
      ends, score, alignX, alignY, found := ViterbiAlign(Task(x, y, par, probs), ln);
    }
  }

  lemma ValidMeans(m: MmEM)
    ensures m.Valid() <==> NoneNegative(m.probs) && NoneNegative(m.counts)
  {
  }
}
