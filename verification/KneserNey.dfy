/** Interpolated Kneser-Ney estimates: what each order computes, and that the probabilities
    after every history add up to one. */
module KneserNey {
  import opened Arithmetic
  import opened Sums
  import opened Backoff

  // ----- effective counts -----

  /** Number of the first n n-grams of ho that occur and whose suffix is i. */
  function LeftBranches(ho: Level, i: nat, n: nat): nat
    requires n <= |ho.counts| && n <= |ho.backoffs|
  {
    if n == 0 then 0
    else LeftBranches(ho, i, n - 1) + (if ho.counts[n - 1] > 0 && ho.backoffs[n - 1] == i then 1 else 0)
  }

  /** Distinct left contexts below the top order; the plain count at the top order and for
      n-grams without left context. */
  function EffCount(m: Model, o: nat, i: nat): nat
    requires 0 < o < |m.levels| && i < |m.levels[o].counts|
    requires o + 1 < |m.levels| ==> |m.levels[o + 1].counts| == |m.levels[o + 1].backoffs|
  {
    if o + 1 == |m.levels| then m.levels[o].counts[i]
    else
      var left := LeftBranches(m.levels[o + 1], i, |m.levels[o + 1].counts|);
      if left == 0 then m.levels[o].counts[i] else left
  }

  /** The occurring n-grams of ho whose suffix is i. */
  ghost function Branches(ho: Level, i: nat, n: nat): set<nat>
    requires n <= |ho.counts| && n <= |ho.backoffs|
  {
    set k: nat | k < n && ho.counts[k] > 0 && ho.backoffs[k] == i
  }

  lemma NoBranches(ho: Level, i: nat)
    ensures Branches(ho, i, 0) == {}
  {
  }

  lemma BranchesStep(ho: Level, i: nat, n: nat)
    requires 0 < n <= |ho.counts| && n <= |ho.backoffs|
    ensures (n - 1) !in Branches(ho, i, n - 1)
    ensures Branches(ho, i, n) == if ho.counts[n - 1] > 0 && ho.backoffs[n - 1] == i
                                  then Branches(ho, i, n - 1) + {n - 1} else Branches(ho, i, n - 1)
  {
  }

  lemma {:induction false} LeftBranchesAre(ho: Level, i: nat, n: nat)
    requires n <= |ho.counts| && n <= |ho.backoffs|
    ensures LeftBranches(ho, i, n) == |Branches(ho, i, n)|
  {
    hide Branches;
    if n == 0 { NoBranches(ho, i); }
    if n > 0 {
      LeftBranchesAre(ho, i, n - 1);
      BranchesStep(ho, i, n);
    }
  }

  /** Effective counts: at the top order and for n-grams that no occurring longer one ends in the
      count itself, else the number of occurring n-grams one word longer that end in it. */
  lemma EffCountIs(m: Model, o: nat, i: nat)
    requires 0 < o < |m.levels| && i < |m.levels[o].counts|
    requires o + 1 < |m.levels| ==> |m.levels[o + 1].counts| == |m.levels[o + 1].backoffs|
    ensures o + 1 == |m.levels| ==> EffCount(m, o, i) == m.levels[o].counts[i]
    ensures o + 1 < |m.levels| ==>
              var longer := Branches(m.levels[o + 1], i, |m.levels[o + 1].counts|);
              EffCount(m, o, i) == if longer == {} then m.levels[o].counts[i] else |longer|
  {
    if o + 1 < |m.levels| {
      LeftBranchesAre(m.levels[o + 1], i, |m.levels[o + 1].counts|);
    }
  }

  /** An n-gram that occurs has a suffix that occurs. */
  ghost predicate SuffixClosed(m: Model)
  {
    forall o :: 1 < o < |m.levels| ==> ClosedOver(m.levels[o], m.levels[o - 1])
  }

  ghost predicate ClosedOver(l: Level, lo: Level)
  {
    forall i :: 0 <= i < |l.counts| && i < |l.backoffs| && OccursAt(l, i) ==>
      l.backoffs[i] < |lo.counts| && OccursAt(lo, l.backoffs[i])
  }

  predicate OccursAt(l: Level, i: nat)
    requires i < |l.counts|
  {
    l.counts[i] > 0
  }

  lemma {:induction false} BranchMeansOccurs(ho: Level, i: nat, n: nat) returns (k: nat)
    requires n <= |ho.counts| && n <= |ho.backoffs| && LeftBranches(ho, i, n) > 0
    ensures k < n && ho.counts[k] > 0 && ho.backoffs[k] == i
  {
    if ho.counts[n - 1] > 0 && ho.backoffs[n - 1] == i {
      k := n - 1;
    } else {
      k := BranchMeansOccurs(ho, i, n - 1);
    }
  }

  /** Effective counts are positive exactly for the n-grams that occur. */
  lemma EffCountPositive(m: Model, o: nat, i: nat)
    requires SuffixClosed(m) && 0 < o < |m.levels| && i < |m.levels[o].counts|
    requires o + 1 < |m.levels| ==> |m.levels[o + 1].counts| == |m.levels[o + 1].backoffs|
    ensures EffCount(m, o, i) > 0 <==> m.levels[o].counts[i] > 0
  {
    if o + 1 < |m.levels| && LeftBranches(m.levels[o + 1], i, |m.levels[o + 1].counts|) > 0 {
      var k := BranchMeansOccurs(m.levels[o + 1], i, |m.levels[o + 1].counts|);
      assert OccursAt(m.levels[o + 1], k);
    }
  }

  // ----- one order -----

  /** Effective counts, discounts by count and n-gram weights of one order. */
  datatype Smoothed = Smoothed(eff: seq<nat>, disc: seq<real>, weights: seq<real>)

  /** Discounts lie between zero and the count they apply to; weights are positive. */
  ghost predicate Proper(l: Level, s: Smoothed)
  {
    && |s.eff| == |s.weights| == |l.words| && |l.hists| == |l.words|
    && |s.disc| > 0 && s.disc[0] == 0.0
    && (forall j :: 0 <= j < |s.disc| ==> 0.0 <= s.disc[j] <= j as real)
    && (forall i :: 0 <= i < |s.weights| ==> s.weights[i] > 0.0)
  }

  function Discount(s: Smoothed, c: nat): real
    requires |s.disc| > 0
  {
    s.disc[if c < |s.disc| then c else |s.disc| - 1]
  }

  /** Counts up to the order of discounting have their own discount, larger ones the last. */
  lemma DiscountIs(s: Smoothed, c: nat)
    requires |s.disc| > 0
    ensures c < |s.disc| ==> Discount(s, c) == s.disc[c]
    ensures c >= |s.disc| ==> Discount(s, c) == Discount(s, |s.disc| - 1)
  {
  }

  function CountWeight(s: Smoothed, i: nat): real
    requires i < |s.eff| && i < |s.weights|
  {
    s.weights[i] * s.eff[i] as real
  }

  function DiscWeight(s: Smoothed, i: nat): real
    requires i < |s.eff| && i < |s.weights| && |s.disc| > 0
  {
    s.weights[i] * Discount(s, s.eff[i])
  }

  ghost function CountTerm(l: Level, s: Smoothed, h: nat): int -> real
    requires Proper(l, s)
  {
    i => if 0 <= i < |l.words| && l.hists[i] == h then CountWeight(s, i) else 0.0
  }

  ghost function DiscTerm(l: Level, s: Smoothed, h: nat): int -> real
    requires Proper(l, s)
  {
    i => if 0 <= i < |l.words| && l.hists[i] == h then DiscWeight(s, i) else 0.0
  }

  /** Total count after a history, and what the discounts take from it. */
  ghost function HistCount(l: Level, s: Smoothed, h: nat): real
    requires Proper(l, s)
  {
    Sum(|l.words|, CountTerm(l, s, h))
  }

  ghost function HistDisc(l: Level, s: Smoothed, h: nat): real
    requires Proper(l, s)
  {
    Sum(|l.words|, DiscTerm(l, s, h))
  }

  function Inverse(x: real): real
  {
    if x == 0.0 then 0.0 else 1.0 / x
  }

  function BowFrom(disc: real, inv: real): real
  {
    if inv == 0.0 then 1.0 else disc * inv
  }

  /** Discounted relative frequency of n-gram i. */
  function Seconded(s: Smoothed, i: nat, inv: real): real
    requires i < |s.eff| && i < |s.weights| && |s.disc| > 0
  {
    if s.eff[i] == 0 then 0.0 else s.weights[i] * (s.eff[i] as real - Discount(s, s.eff[i])) * inv
  }

  /** Interpolated probability; with an open vocabulary unigrams that never occur get none. */
  function Interpolated(s: Smoothed, open: bool, i: nat, inv: real, bow: real, boProb: real): real
    requires i < |s.eff| && i < |s.weights| && |s.disc| > 0
  {
    if open && s.eff[i] == 0 then 0.0 else Seconded(s, i, inv) + boProb * bow
  }

  ghost function InvOf(l: Level, s: Smoothed, h: nat): real
    requires Proper(l, s)
  {
    Inverse(HistCount(l, s, h))
  }

  ghost function BowOf(l: Level, s: Smoothed, h: nat): real
    requires Proper(l, s)
  {
    BowFrom(HistDisc(l, s, h), InvOf(l, s, h))
  }

  ghost function ProbOf(l: Level, s: Smoothed, open: bool, i: nat, boProb: real): real
    requires Proper(l, s) && i < |l.words|
  {
    Interpolated(s, open, i, InvOf(l, s, l.hists[i]), BowOf(l, s, l.hists[i]), boProb)
  }

  lemma SecondedIs(l: Level, s: Smoothed, i: nat, inv: real)
    requires Proper(l, s) && i < |l.words|
    ensures Seconded(s, i, inv) == inv * (CountWeight(s, i) - DiscWeight(s, i))
    ensures 0.0 <= DiscWeight(s, i) <= CountWeight(s, i)
  {
    var w, c, d := s.weights[i], s.eff[i] as real, Discount(s, s.eff[i]);
    assert 0.0 <= d <= c;
    Factor(w, c, d, inv);
  }

  lemma Factor(w: real, c: real, d: real, inv: real)
    requires w > 0.0 && 0.0 <= d <= c
    ensures w * (c - d) * inv == inv * (w * c - w * d)
    ensures 0.0 <= w * d <= w * c
  {
  }

  /** Bow and discounted frequencies share out the whole. */
  lemma SharesAddUp(hist: real, disc: real, inv: real, bow: real)
    requires inv == Inverse(hist) && bow == BowFrom(disc, inv)
    ensures bow + inv * (hist - disc) == 1.0
  {
    if hist != 0.0 {
      assert inv * hist == 1.0;
      assert inv != 0.0;
      assert inv * (hist - disc) == inv * hist - inv * disc;
    }
  }

  lemma ScaledDifference(l: Level, s: Smoothed, h: nat, inv: real, gain: int -> real)
    requires Proper(l, s)
    requires forall i :: 0 <= i < |l.words| ==> gain(i) == inv * (CountTerm(l, s, h)(i) - DiscTerm(l, s, h)(i))
    ensures Sum(|l.words|, gain) == inv * (HistCount(l, s, h) - HistDisc(l, s, h))
  {
    hide Proper, Sum;
    var c, d := CountTerm(l, s, h), DiscTerm(l, s, h);
    var diff := (i: int) => c(i) - d(i);
    SumAdd(|l.words|, diff, d, c);
    SumScale(|l.words|, inv, diff, gain);
  }

  /** After a history whose lower distribution adds up to one, so does the interpolated one. */
  lemma LevelNormalises(l: Level, s: Smoothed, h: nat, vocab: nat, probs: seq<real>, lower: int -> real, mixed: int -> real)
    requires Proper(l, s) && |probs| == |l.words| && UniqueGrams(l)
    requires forall i :: 0 <= i < |l.words| ==> l.words[i] < vocab
    requires forall i :: 0 <= i < |l.words| && l.hists[i] == h ==> probs[i] == ProbOf(l, s, false, i, lower(l.words[i]))
    requires forall w :: 0 <= w < vocab ==> mixed(w) == Mixed(l, h, probs, BowOf(l, s, h), lower, w)
    requires Sum(vocab, lower) == 1.0
    ensures Sum(vocab, mixed) == 1.0
  {
    hide Sum, Mixed, BowOf, InvOf, HistCount, HistDisc, UniqueGrams, Seconded, CountWeight, DiscWeight;
    var bow, inv := BowOf(l, s, h), InvOf(l, s, h);
    BackoffSum(l, h, vocab, probs, bow, lower, mixed);
    var gain := Gain(l, h, probs, bow, lower);
    forall i | 0 <= i < |l.words|
      ensures gain(i) == inv * (CountTerm(l, s, h)(i) - DiscTerm(l, s, h)(i))
    {
      ZeroTimes(inv);
      if l.hists[i] == h {
        SecondedIs(l, s, i, inv);
      }
    }
    ScaledDifference(l, s, h, inv, gain);
    LevelShares(l, s, h);
    WholeShare(bow, Sum(vocab, lower), Sum(|l.words|, gain));
  }

  lemma WholeShare(bow: real, low: real, gain: real)
    requires low == 1.0 && bow + gain == 1.0
    ensures bow * low + gain == 1.0
  {
  }

  lemma LevelShares(l: Level, s: Smoothed, h: nat)
    requires Proper(l, s)
    ensures BowOf(l, s, h) + InvOf(l, s, h) * (HistCount(l, s, h) - HistDisc(l, s, h)) == 1.0
  {
    hide HistCount, HistDisc, Proper;
    SharesAddUp(HistCount(l, s, h), HistDisc(l, s, h), InvOf(l, s, h), BowOf(l, s, h));
  }

  lemma InverseNotNegative(x: real)
    requires x >= 0.0
    ensures Inverse(x) >= 0.0
  {
  }

  lemma LevelNotNegative(l: Level, s: Smoothed, h: nat)
    requires Proper(l, s)
    ensures BowOf(l, s, h) >= 0.0 && InvOf(l, s, h) >= 0.0
    ensures BowOf(l, s, h) <= 1.0
  {
    hide CountWeight, DiscWeight, Inverse;
    forall i | 0 <= i < |l.words|
      ensures CountTerm(l, s, h)(i) >= 0.0 && DiscTerm(l, s, h)(i) >= 0.0 && CountTerm(l, s, h)(i) - DiscTerm(l, s, h)(i) >= 0.0
    {
      SecondedIs(l, s, i, 1.0);
    }
    SumNonNeg(|l.words|, CountTerm(l, s, h));
    SumNonNeg(|l.words|, DiscTerm(l, s, h));
    var gain := (i: int) => 1.0 * (CountTerm(l, s, h)(i) - DiscTerm(l, s, h)(i));
    ScaledDifference(l, s, h, 1.0, gain);
    SumNonNeg(|l.words|, gain);
    InverseNotNegative(HistCount(l, s, h));
    ProductNotNegative(HistDisc(l, s, h), InvOf(l, s, h));
    ProductNotNegative(InvOf(l, s, h), HistCount(l, s, h) - HistDisc(l, s, h));
    LevelShares(l, s, h);
  }

  lemma ProbNotNegative(l: Level, s: Smoothed, open: bool, i: nat, boProb: real)
    requires Proper(l, s) && i < |l.words| && boProb >= 0.0
    ensures ProbOf(l, s, open, i, boProb) >= 0.0
  {
    hide CountWeight, DiscWeight, BowOf, InvOf, Seconded;
    LevelNotNegative(l, s, l.hists[i]);
    SecondedIs(l, s, i, InvOf(l, s, l.hists[i]));
    ProductNotNegative(InvOf(l, s, l.hists[i]), CountWeight(s, i) - DiscWeight(s, i));
    ProductNotNegative(boProb, BowOf(l, s, l.hists[i]));
  }
}
