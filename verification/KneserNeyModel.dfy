/** All orders together: the tables the estimator fills and the total probability after every
    history, by induction over the orders. */
module KneserNeyModel {
  import opened Arithmetic
  import opened Sums
  import opened Backoff
  import opened KneserNey

  function Open(m: Model, o: nat): bool
  {
    o == 1 && !m.fixedVocab
  }

  /** Number of the first n unigrams that occur. */
  function Occurring(l: Level, n: nat): nat
    requires n <= |l.counts|
  {
    if n == 0 then 0 else Occurring(l, n - 1) + (if l.counts[n - 1] > 0 then 1 else 0)
  }

  /** Number of words the order-0 distribution is spread over. */
  function Support(m: Model): nat
    requires |m.levels| > 1
  {
    if m.fixedVocab then Size(m.levels[1]) else Occurring(m.levels[1], |m.levels[1].counts|)
  }

  /** The order-0 distribution: uniform over the vocabulary, or over the words that occur. */
  ghost function Base(m: Model, p0: real): int -> real
    requires |m.levels| > 1 && |m.levels[1].hists| == |m.levels[1].words| == |m.levels[1].counts|
  {
    w => if m.fixedVocab then p0
         else if Seen(m.levels[1], 0, w) && m.levels[1].counts[IndexOf(m.levels[1], 0, w)] > 0 then p0 else 0.0
  }

  /** The smoothing data of all orders fit the model; entry 0 is not used. */
  ghost predicate Smoothable(m: Model, s: seq<Smoothed>)
  {
    && |s| == |m.levels| > 1
    && (forall o :: 0 < o < |m.levels| ==> Proper(m.levels[o], s[o]))
    && (forall i :: 0 <= i < |s[1].eff| && i < |m.levels[1].counts| ==> (s[1].eff[i] > 0 <==> m.levels[1].counts[i] > 0))
  }

  ghost predicate LevelEstimated(l: Level, s: Smoothed, open: bool, lo: seq<real>, probs: seq<real>, bows: seq<real>)
    requires Proper(l, s) && |l.backoffs| == |l.words| == |probs|
    requires forall i :: 0 <= i < |l.words| ==> l.backoffs[i] < |lo|
  {
    && (forall i :: 0 <= i < |l.words| ==> probs[i] == ProbOf(l, s, open, i, lo[l.backoffs[i]]))
    && (forall h :: 0 <= h < |bows| ==> bows[h] == BowOf(l, s, h))
  }

  /** The tables hold the estimates of every order. */
  ghost predicate Estimated(m: Model, s: seq<Smoothed>, p0: real, probs: seq<seq<real>>, bows: seq<seq<real>>)
    requires WellFormed(m) && Smoothable(m, s) && Tables(m, probs, bows)
  {
    && probs[0][0] == p0
    && (forall o {:trigger probs[o]} :: 0 < o < |m.levels| ==> EstimatedAt(m, s, probs, bows, o))
  }

  ghost predicate EstimatedAt(m: Model, s: seq<Smoothed>, probs: seq<seq<real>>, bows: seq<seq<real>>, o: nat)
    requires WellFormed(m) && Smoothable(m, s) && Tables(m, probs, bows) && 0 < o < |m.levels|
  {
    assert Sits(m.levels[o], m.levels[o - 1], m.vocab);
    LevelEstimated(m.levels[o], s[o], Open(m, o), probs[o - 1], probs[o], bows[o - 1])
  }

  // ----- order 0 -----

  lemma {:induction false} OccurringSum(l: Level, n: nat, p0: real, f: int -> real)
    requires n <= |l.counts|
    requires forall i :: 0 <= i < n ==> f(i) == if l.counts[i] > 0 then p0 else 0.0
    ensures Sum(n, f) == p0 * Occurring(l, n) as real
  {
    ZeroTimes(p0);
    if n > 0 {
      OccurringSum(l, n - 1, p0, f);
      Distribute(p0, Occurring(l, n - 1) as real, 1.0);
    }
  }

  lemma {:induction false} ConstantSum(n: nat, p0: real, f: int -> real)
    requires forall i :: 0 <= i < n ==> f(i) == p0
    ensures Sum(n, f) == p0 * n as real
  {
    ZeroTimes(p0);
    if n > 0 {
      ConstantSum(n - 1, p0, f);
      Distribute(p0, (n - 1) as real, 1.0);
      assert (n - 1) as real + 1.0 == n as real;
    }
  }

  lemma UnitMass(p0: real, n: nat)
    requires n > 0 && p0 == 1.0 / n as real
    ensures p0 * n as real == 1.0 && p0 > 0.0
  {
  }

  ghost function OwnMass(l: Level, p0: real): int -> real
  {
    i => if 0 <= i < |l.counts| && l.counts[i] > 0 then p0 else 0.0
  }

  lemma OpenBaseSum(m: Model, p0: real)
    requires WellFormed(m) && !m.fixedVocab
    requires |m.levels[1].hists| == |m.levels[1].words| == |m.levels[1].counts|
    ensures Sum(m.vocab, Base(m, p0)) == p0 * Occurring(m.levels[1], |m.levels[1].counts|) as real
  {
    hide Sum, Occurring, Base, WellFormed;
    UnigramWords(m);
    var l := m.levels[1];
    OccurringSum(l, |l.words|, p0, OwnMass(l, p0));
    forall w | 0 <= w < m.vocab
      ensures Base(m, p0)(w) == Sum(|l.words|, EndingIn(l, OwnMass(l, p0), w))
    {
      BaseOfWord(m, p0, w);
    }
    SumByWord(l, m.vocab, OwnMass(l, p0), Base(m, p0));
  }

  lemma UnigramWords(m: Model)
    requires WellFormed(m)
    ensures |m.levels| > 1 && |m.levels[1].hists| == |m.levels[1].words| == |m.levels[1].counts| == m.vocab
    ensures UniqueGrams(m.levels[1])
    ensures forall i :: 0 <= i < |m.levels[1].words| ==> m.levels[1].words[i] < m.vocab && m.levels[1].hists[i] == 0
  {
    assert Sits(m.levels[1], m.levels[0], m.vocab);
  }

  /** Order 0 is a distribution. */
  lemma BaseNormalises(m: Model, p0: real)
    requires WellFormed(m) && Support(m) > 0 && p0 == 1.0 / Support(m) as real
    ensures |m.levels[1].hists| == |m.levels[1].words| == |m.levels[1].counts|
    ensures Sum(m.vocab, Base(m, p0)) == 1.0
    ensures forall w :: Base(m, p0)(w) >= 0.0
  {
    hide Sum, Occurring, WellFormed;
    UnigramWords(m);
    UnitMass(p0, Support(m));
    if m.fixedVocab {
      ConstantSum(m.vocab, p0, Base(m, p0));
    } else {
      OpenBaseSum(m, p0);
    }
  }

  lemma BaseOfWord(m: Model, p0: real, w: nat)
    requires WellFormed(m) && !m.fixedVocab
    requires |m.levels[1].hists| == |m.levels[1].words| == |m.levels[1].counts|
    ensures Base(m, p0)(w) == Sum(|m.levels[1].words|, EndingIn(m.levels[1], OwnMass(m.levels[1], p0), w))
  {
    hide Sum, WellFormed;
    UnigramWords(m);
    var l := m.levels[1];
    var f := EndingIn(l, OwnMass(l, p0), w);
    forall i | 0 <= i < |l.words|
      ensures WordOf(l)(i) == w <==> IsGram(l, 0, w, i)
    {
    }
    if Seen(l, 0, w) {
      var k := IndexOf(l, 0, w);
      forall i | 0 <= i < |l.words| && i != k
        ensures f(i) == 0.0
      {
        OtherGram(l, 0, w, k, i);
      }
      SumPick(|l.words|, k, f);
    } else {
      forall i | 0 <= i < |l.words|
        ensures f(i) == 0.0
      {
        assert !IsGram(l, 0, w, i);
      }
      SumZero(|l.words|, f);
    }
  }

  // ----- the induction -----

  ghost function After(m: Model, base: int -> real, probs: seq<seq<real>>, bows: seq<seq<real>>, o: nat, h: nat): int -> real
    requires WellFormed(m) && Tables(m, probs, bows) && o < |m.levels|
    requires o > 0 ==> h < Size(m.levels[o - 1])
  {
    w => WordProb(m, base, probs, bows, o, h, w)
  }

  ghost predicate IsDistribution(vocab: nat, f: int -> real)
  {
    Sum(vocab, f) == 1.0 && forall w :: 0 <= w < vocab ==> f(w) >= 0.0
  }

  /** Unigrams: an open vocabulary behaves like the distribution over the words that occur. */
  lemma BaseAgrees(m: Model, s: seq<Smoothed>, p0: real, i: nat, open: bool)
    requires WellFormed(m) && Smoothable(m, s) && i < Size(m.levels[1]) && open == Open(m, 1)
    requires |m.levels[1].hists| == |m.levels[1].words| == |m.levels[1].counts|
    ensures ProbOf(m.levels[1], s[1], open, i, p0) == ProbOf(m.levels[1], s[1], false, i, Base(m, p0)(m.levels[1].words[i]))
  {
    hide BowOf, InvOf, Sum;
    var l := m.levels[1];
    assert Sits(l, m.levels[0], m.vocab);
    var w := l.words[i];
    assert IsGram(l, 0, w, i);
    SameGram(l, 0, w, i, IndexOf(l, 0, w));
  }

  lemma OrderNormalises(m: Model, s: seq<Smoothed>, p0: real, probs: seq<seq<real>>, bows: seq<seq<real>>, o: nat, h: nat)
    requires WellFormed(m) && Smoothable(m, s) && Tables(m, probs, bows) && Estimated(m, s, p0, probs, bows)
    requires 0 < o < |m.levels| && h < Size(m.levels[o - 1])
    requires |m.levels[1].hists| == |m.levels[1].words| == |m.levels[1].counts|
    requires IsDistribution(m.vocab, Lower(m, Base(m, p0), probs, bows, o, h))
    ensures IsDistribution(m.vocab, After(m, Base(m, p0), probs, bows, o, h))
  {
    hide Mixed, Base, Sum, Proper, ProbOf, BowOf, WellFormed, Lower, Open;
    var l := m.levels[o];
    LevelFacts(m, o);
    EstimatesAt(m, s, p0, probs, bows, o);
    var lower, after := Lower(m, Base(m, p0), probs, bows, o, h), After(m, Base(m, p0), probs, bows, o, h);
    forall i | 0 <= i < |l.words| && l.hists[i] == h
      ensures probs[o][i] == ProbOf(l, s[o], false, i, lower(l.words[i]))
    {
      GramAgrees(m, s, p0, probs, bows, o, h, i);
    }
    LevelNormalises(l, s[o], h, m.vocab, probs[o], lower, after);
    forall w | 0 <= w < m.vocab
      ensures after(w) >= 0.0
    {
      WordNotNegative(l, s[o], h, probs[o], lower, w);
    }
  }

  lemma LevelFacts(m: Model, o: nat)
    requires WellFormed(m) && 0 < o < |m.levels|
    ensures Sits(m.levels[o], m.levels[o - 1], m.vocab)
  {
  }

  lemma EstimatesAt(m: Model, s: seq<Smoothed>, p0: real, probs: seq<seq<real>>, bows: seq<seq<real>>, o: nat)
    requires WellFormed(m) && Smoothable(m, s) && Tables(m, probs, bows) && Estimated(m, s, p0, probs, bows)
    requires 0 < o < |m.levels| && Sits(m.levels[o], m.levels[o - 1], m.vocab)
    ensures Proper(m.levels[o], s[o])
    ensures LevelEstimated(m.levels[o], s[o], Open(m, o), probs[o - 1], probs[o], bows[o - 1])
  {
    hide Sits, Proper, LevelEstimated;
    assert EstimatedAt(m, s, probs, bows, o);
  }

  lemma GramAgrees(m: Model, s: seq<Smoothed>, p0: real, probs: seq<seq<real>>, bows: seq<seq<real>>, o: nat, h: nat, i: nat)
    requires WellFormed(m) && Smoothable(m, s) && Tables(m, probs, bows) && Estimated(m, s, p0, probs, bows)
    requires 0 < o < |m.levels| && h < Size(m.levels[o - 1]) && i < Size(m.levels[o])
    requires Sits(m.levels[o], m.levels[o - 1], m.vocab) && m.levels[o].hists[i] == h && Proper(m.levels[o], s[o])
    requires |m.levels[1].hists| == |m.levels[1].words| == |m.levels[1].counts|
    ensures probs[o][i]
         == ProbOf(m.levels[o], s[o], false, i, Lower(m, Base(m, p0), probs, bows, o, h)(m.levels[o].words[i]))
  {
    hide Mixed, Base, Sum, Proper, ProbOf, BowOf;
    EstimatesAt(m, s, p0, probs, bows, o);
    if o == 1 {
      assert m.levels[1].backoffs[i] == 0 && probs[0][0] == p0;
      var w := m.levels[1].words[i];
      assert WordProb(m, Base(m, p0), probs, bows, 0, 0, w) == Base(m, p0)(w);
      BaseAgrees(m, s, p0, i, Open(m, 1));
    } else {
      SuffixProb(m, Base(m, p0), probs, bows, o, h, i);
    }
  }

  lemma WordNotNegative(l: Level, s: Smoothed, h: nat, probs: seq<real>, lower: int -> real, w: nat)
    requires Proper(l, s) && |probs| == |l.words|
    requires forall i :: 0 <= i < |l.words| && l.hists[i] == h ==> probs[i] == ProbOf(l, s, false, i, lower(l.words[i]))
    requires lower(w) >= 0.0
    ensures Mixed(l, h, probs, BowOf(l, s, h), lower, w) >= 0.0
  {
    hide ProbOf, BowOf;
    if Seen(l, h, w) {
      ProbNotNegative(l, s, false, IndexOf(l, h, w), lower(w));
    } else {
      LevelNotNegative(l, s, h);
      ProductNotNegative(BowOf(l, s, h), lower(w));
    }
  }

  /** Kneser-Ney normalises: after every history of every order the recursive backoff
      probabilities of the vocabulary are not negative and add up to one. */
  lemma {:induction false} KneserNeyNormalises(m: Model, s: seq<Smoothed>, p0: real, probs: seq<seq<real>>,
                                               bows: seq<seq<real>>, o: nat, h: nat)
    requires WellFormed(m) && Smoothable(m, s) && Tables(m, probs, bows) && Estimated(m, s, p0, probs, bows)
    requires Support(m) > 0 && p0 == 1.0 / Support(m) as real
    requires o < |m.levels| && (o > 0 ==> h < Size(m.levels[o - 1]))
    ensures |m.levels[1].hists| == |m.levels[1].words| == |m.levels[1].counts|
    ensures IsDistribution(m.vocab, After(m, Base(m, p0), probs, bows, o, h))
    decreases o
  {
    hide Estimated, Smoothable, Support, Sum, Proper, Base;
    BaseNormalises(m, p0);
    if o == 0 {
      SumEq(m.vocab, Base(m, p0), After(m, Base(m, p0), probs, bows, o, h));
    } else {
      assert o > 1 ==> Sits(m.levels[o - 1], m.levels[o - 2], m.vocab);
      var g := if o == 1 then 0 else m.levels[o - 1].backoffs[h];
      KneserNeyNormalises(m, s, p0, probs, bows, o - 1, g);
      SumEq(m.vocab, After(m, Base(m, p0), probs, bows, o - 1, g), Lower(m, Base(m, p0), probs, bows, o, h));
      OrderNormalises(m, s, p0, probs, bows, o, h);
    }
  }
}
