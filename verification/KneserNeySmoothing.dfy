/** The estimator as it runs: counting, discount factors, and the two passes that share one
    buffer between discounts and probabilities. */
module KneserNeySmoothing {
  import opened Arithmetic
  import opened Sums
  import opened Backoff
  import opened KneserNey
  import opened KneserNeyModel

  // ----- discount factors -----

  /** A quotient of counts is undefined when both are zero. */
  datatype Param = NaN | Num(v: real)

  /** How often the count j occurs among the first n. */
  function TimesSeen(eff: seq<nat>, j: nat, n: nat): nat
    requires n <= |eff|
  {
    if n == 0 then 0 else TimesSeen(eff, j, n - 1) + (if eff[n - 1] == j then 1 else 0)
  }

  function Clip(d: real, i: nat): real
  {
    if d < 0.0 then 0.0 else if d > i as real then i as real else d
  }

  function CountOfCount(eff: seq<nat>, j: nat): nat
  {
    TimesSeen(eff, j, |eff|)
  }

  /** The discount factor before clipping, from the counts n and next of counts i and i + 1. */
  function RawDiscount(i: nat, n1: nat, n2: nat, n: nat, next: nat): real
    requires n > 0 && n1 + 2 * n2 > 0
  {
    var y := n1 as real / (n1 + 2 * n2) as real;
    i as real - (i + 1) as real * y * next as real / n as real
  }

  /** The discount for count i. */
  function DiscountFor(eff: seq<nat>, i: nat): Param
  {
    var n1, n2 := CountOfCount(eff, 1), CountOfCount(eff, 2);
    var n, next := CountOfCount(eff, i), CountOfCount(eff, i + 1);
    if n == 0 then Num(i as real)
    else if n1 + 2 * n2 == 0 then NaN
    else Num(Clip(RawDiscount(i, n1, n2, n, next), i))
  }

  /** Counts the counts below the length of the table. */
  method CountCounts(eff: seq<nat>, length: nat) returns (n: array<nat>)
    ensures fresh(n) && n.Length == length
    ensures forall j :: 0 <= j < length ==> n[j] == CountOfCount(eff, j)
  {
    n := new nat[length](_ => 0);
    for i := 0 to |eff|
      invariant forall j :: 0 <= j < length ==> n[j] == TimesSeen(eff, j, i)
    {
      if eff[i] < length {
        n[eff[i]] := n[eff[i]] + 1;
      }
    }
  }

  method EstimateDiscounts(eff: seq<nat>, discOrder: nat) returns (disc: seq<Param>)
    requires discOrder > 0
    ensures |disc| == discOrder + 1 && disc[0] == Num(0.0)
    ensures forall i :: 1 <= i <= discOrder ==> disc[i] == DiscountFor(eff, i)
    ensures CountOfCount(eff, 1) > 0 ==>
              disc[1] == Num(CountOfCount(eff, 1) as real / (CountOfCount(eff, 1) + 2 * CountOfCount(eff, 2)) as real)
  {
    hide CountOfCount, RawDiscount;
    if CountOfCount(eff, 1) > 0 { FirstDiscount(eff); }
    var n := CountCounts(eff, discOrder + 2);
    disc := [Num(0.0)];
    for i := 1 to discOrder + 1
      invariant |disc| == i && disc[0] == Num(0.0)
      invariant forall j :: 1 <= j < i ==> disc[j] == DiscountFor(eff, j)
    {
      var d := if n[i] == 0 then Num(i as real)
               else if n[1] + 2 * n[2] == 0 then NaN
               else Num(RawDiscount(i, n[1], n[2], n[i], n[i + 1]));
      if d.Num? && d.v < 0.0 {
        d := Num(0.0);
      }
      if d.Num? && d.v > i as real {
        d := Num(i as real);
      }
      disc := disc + [d];
    }
  }

  ghost predicate AllDefined(disc: seq<Param>)
  {
    forall i :: 0 <= i < |disc| ==> disc[i].Num?
  }

  function Values(disc: seq<Param>): (r: seq<real>)
    requires AllDefined(disc)
    ensures |r| == |disc| && forall i :: 0 <= i < |disc| ==> r[i] == disc[i].v
  {
    seq(|disc|, i requires 0 <= i < |disc| => disc[i].v)
  }

  /** The factors are usable exactly when some n-gram has count one or two, or none has a
      count from three up to the discount order; then each lies between zero and its count. */
  lemma DiscountsUsable(eff: seq<nat>, discOrder: nat, disc: seq<Param>)
    requires discOrder > 0 && |disc| == discOrder + 1 && disc[0] == Num(0.0)
    requires forall i :: 1 <= i <= discOrder ==> disc[i] == DiscountFor(eff, i)
    ensures AllDefined(disc) <==> (CountOfCount(eff, 1) > 0 || CountOfCount(eff, 2) > 0
                                   || forall i :: 3 <= i <= discOrder ==> CountOfCount(eff, i) == 0)
    ensures forall i :: 0 <= i < |disc| && disc[i].Num? ==> 0.0 <= disc[i].v <= i as real
  {
    hide CountOfCount;
    if CountOfCount(eff, 1) + 2 * CountOfCount(eff, 2) == 0 && AllDefined(disc) {
      forall i | 3 <= i <= discOrder
        ensures CountOfCount(eff, i) == 0
      {
        assert disc[i].Num?;
      }
    }
  }

  /** The count of a count is how often it occurs. */
  lemma {:induction false} CountOfCountIs(eff: seq<nat>, j: nat, n: nat)
    requires n <= |eff|
    ensures TimesSeen(eff, j, n) == multiset(eff[..n])[j]
  {
    if n > 0 {
      CountOfCountIs(eff, j, n - 1);
      assert eff[..n] == eff[..n - 1] + [eff[n - 1]];
    }
  }

  /** Which number a factor is, in terms of the counts of counts: the full count when no n-gram
      has it; else a solves (i - a) n_i (n_1 + 2 n_2) = (i + 1) n_1 n_(i + 1), or is zero where
      that would be negative. For count one that is n_1 / (n_1 + 2 n_2). */
  lemma DiscountSolves(eff: seq<nat>, i: nat)
    requires i > 0
    ensures var n1, n2 := CountOfCount(eff, 1), CountOfCount(eff, 2);
            var n, next := CountOfCount(eff, i), CountOfCount(eff, i + 1);
            && (n == 0 ==> DiscountFor(eff, i) == Num(i as real))
            && (n > 0 ==> (DiscountFor(eff, i).NaN? <==> n1 + 2 * n2 == 0))
            && (n > 0 && n1 + 2 * n2 > 0 ==>
                  var d := DiscountFor(eff, i).v;
                  && (d > 0.0 ==> (i as real - d) * (n * (n1 + 2 * n2)) as real == ((i + 1) * (n1 * next)) as real)
                  && (d == 0.0 ==> (i * (n * (n1 + 2 * n2))) as real <= ((i + 1) * (n1 * next)) as real)
                  && 0.0 <= d <= i as real)
  {
    hide CountOfCount;
    var n1, n2 := CountOfCount(eff, 1), CountOfCount(eff, 2);
    var n, next := CountOfCount(eff, i), CountOfCount(eff, i + 1);
    if n > 0 && n1 + 2 * n2 > 0 {
      RawSolves(i, n1, n2, n, next);
    }
  }

  lemma RawSolves(i: nat, n1: nat, n2: nat, n: nat, next: nat)
    requires n > 0 && n1 + 2 * n2 > 0
    ensures (i as real - RawDiscount(i, n1, n2, n, next)) * (n * (n1 + 2 * n2)) as real == ((i + 1) * (n1 * next)) as real
    ensures RawDiscount(i, n1, n2, n, next) <= i as real
    ensures RawDiscount(i, n1, n2, n, next) <= 0.0 ==> (i * (n * (n1 + 2 * n2))) as real <= ((i + 1) * (n1 * next)) as real
  {
    var a, b, c, d := (i + 1) as real, n1 as real, (n1 + 2 * n2) as real, n as real;
    var e := next as real;
    var raw := RawDiscount(i, n1, n2, n, next);
    assert raw == i as real - a * (b / c) * e / d;
    Fraction(a, b, c, d, e);
    assert (n * (n1 + 2 * n2)) as real == d * c;
    assert ((i + 1) * (n1 * next)) as real == a * (b * e);
    assert (i * (n * (n1 + 2 * n2))) as real == i as real * (d * c);
    if raw <= 0.0 {
      Scaling(i as real, i as real - raw, d * c);
    }
  }

  lemma Fraction(a: real, b: real, c: real, d: real, e: real)
    requires a >= 0.0 && b >= 0.0 && c > 0.0 && d > 0.0 && e >= 0.0
    ensures a * (b / c) * e / d >= 0.0
    ensures a * (b / c) * e / d * (d * c) == a * (b * e) && d * c > 0.0
  {
    var x := b / c;
    assert x * c == b && x >= 0.0;
    var y := a * x * e / d;
    assert y * d == a * x * e;
    assert y * (d * c) == (y * d) * c == (a * x * e) * c == a * ((x * c) * e);
  }

  lemma Scaling(u: real, v: real, w: real)
    requires u <= v && w > 0.0
    ensures u * w <= v * w
  {
  }

  /** For count one the factor is n_1 / (n_1 + 2 n_2). */
  lemma FirstDiscount(eff: seq<nat>)
    requires CountOfCount(eff, 1) > 0
    ensures var n1, n2 := CountOfCount(eff, 1), CountOfCount(eff, 2);
            DiscountFor(eff, 1) == Num(n1 as real / (n1 + 2 * n2) as real)
  {
    hide CountOfCount;
    var n1, n2 := CountOfCount(eff, 1), CountOfCount(eff, 2);
    RawFirst(n1, n2);
  }

  lemma RawFirst(n1: nat, n2: nat)
    requires n1 > 0
    ensures RawDiscount(1, n1, n2, n1, n2) == n1 as real / (n1 + 2 * n2) as real
    ensures 0.0 <= n1 as real / (n1 + 2 * n2) as real <= 1.0
  {
    hide RawDiscount;
    RawSolves(1, n1, n2, n1, n2);
    var a, b, c := n1 as real, n2 as real, (n1 + 2 * n2) as real;
    var gap := 1.0 - RawDiscount(1, n1, n2, n1, n2);
    ProductsAsReals(n1, n2);
    Regroup(gap, a, c);
    CancelFactor(a, gap * c, 2.0 * b);
    Distribute(c, 1.0, -gap);
    QuotientIs(1.0 - gap, a, c);
    ShareInRange(a, c);
  }

  lemma ProductsAsReals(n1: nat, n2: nat)
    ensures (n1 * (n1 + 2 * n2)) as real == n1 as real * (n1 + 2 * n2) as real
    ensures ((1 + 1) * (n1 * n2)) as real == n1 as real * (2.0 * n2 as real)
  {
  }

  lemma Regroup(x: real, y: real, z: real)
    ensures x * (y * z) == y * (x * z)
  {
  }

  lemma CancelFactor(a: real, x: real, y: real)
    requires a != 0.0 && a * x == a * y
    ensures x == y
  {
  }

  lemma ShareInRange(a: real, c: real)
    requires 0.0 < a <= c
    ensures 0.0 <= a / c <= 1.0
  {
  }

  // ----- counts -----

  method LeftBranchCounts(ho: Level, size: nat) returns (eff: array<nat>)
    requires |ho.counts| == |ho.backoffs| && forall k :: 0 <= k < |ho.backoffs| ==> ho.backoffs[k] < size
    ensures fresh(eff) && eff.Length == size
    ensures forall i :: 0 <= i < size ==> eff[i] == LeftBranches(ho, i, |ho.counts|)
  {
    eff := new nat[size](_ => 0);
    for k := 0 to |ho.counts|
      invariant forall i :: 0 <= i < size ==> eff[i] == LeftBranches(ho, i, k)
    {
      if ho.counts[k] > 0 {
        eff[ho.backoffs[k]] := eff[ho.backoffs[k]] + 1;
      }
    }
  }

  /** Effective counts of one order. */
  method ComputeEffCounts(m: Model, o: nat) returns (eff: seq<nat>)
    requires WellFormed(m) && 0 < o < |m.levels|
    ensures |eff| == |m.levels[o].words| == |m.levels[o].counts|
    ensures o + 1 < |m.levels| ==> |m.levels[o + 1].counts| == |m.levels[o + 1].backoffs|
    ensures forall i :: 0 <= i < |eff| ==> eff[i] == EffCount(m, o, i)
  {
    LevelFacts(m, o);
    eff := m.levels[o].counts;
    if o + 1 < |m.levels| {
      LevelFacts(m, o + 1);
      var left := LeftBranchCounts(m.levels[o + 1], Size(m.levels[o]));
      for i := 0 to left.Length
        invariant |eff| == left.Length == |m.levels[o].counts|
        invariant forall k :: 0 <= k < i ==> eff[k] == EffCount(m, o, k)
        invariant forall k :: i <= k < |eff| ==> eff[k] == m.levels[o].counts[k]
      {
        if left[i] != 0 {
          eff := eff[i := left[i]];
        }
      }
    }
  }

  lemma CountTermSnoc(l: Level, s: Smoothed, h: nat, i: nat)
    requires Proper(l, s) && i < |l.words|
    ensures Sum(i + 1, CountTerm(l, s, h)) == Sum(i, CountTerm(l, s, h)) + (if l.hists[i] == h then CountWeight(s, i) else 0.0)
    ensures Sum(i + 1, DiscTerm(l, s, h)) == Sum(i, DiscTerm(l, s, h)) + (if l.hists[i] == h then DiscWeight(s, i) else 0.0)
  {
    hide CountWeight, DiscWeight, Proper;
  }

  /** Inverse of the weighted count of every history. */
  method ComputeInvHistCounts(l: Level, s: Smoothed, size: nat) returns (inv: seq<real>)
    requires Proper(l, s) && forall i :: 0 <= i < |l.hists| ==> l.hists[i] < size
    ensures |inv| == size && forall h :: 0 <= h < size ==> inv[h] == InvOf(l, s, h)
  {
    hide Sum, CountTerm, CountWeight;
    inv := seq(size, _ => 0.0);
    NothingSummed(l, s, size);
    for i := 0 to |l.words|
      invariant |inv| == size && forall h :: 0 <= h < size ==> inv[h] == Sum(i, CountTerm(l, s, h))
    {
      forall h | 0 <= h < size
        ensures Sum(i + 1, CountTerm(l, s, h)) == Sum(i, CountTerm(l, s, h)) + (if l.hists[i] == h then CountWeight(s, i) else 0.0)
      {
        CountTermSnoc(l, s, h, i);
      }
      inv := inv[l.hists[i] := inv[l.hists[i]] + CountWeight(s, i)];
    }
    inv := seq(size, h requires 0 <= h < |inv| => Inverse(inv[h]));
  }

  lemma NothingSummed(l: Level, s: Smoothed, size: nat)
    requires Proper(l, s)
    ensures forall h :: 0 <= h < size ==> Sum(0, CountTerm(l, s, h)) == 0.0 && Sum(0, DiscTerm(l, s, h)) == 0.0
  {
  }

  // ----- the estimates of one order -----

  /** Everything one order's estimate reads. */
  ghost predicate Inputs(l: Level, s: Smoothed, inv: seq<real>, lo: seq<real>)
  {
    && Proper(l, s) && |l.hists| == |l.words| == |l.backoffs|
    && (forall i :: 0 <= i < |l.words| ==> l.hists[i] < |inv| && l.backoffs[i] < |lo|)
    && (forall h :: 0 <= h < |inv| ==> inv[h] == InvOf(l, s, h))
  }

  /** Adds the discounts, read from the probability buffer, to the histories. */
  method AddDiscounts(l: Level, s: Smoothed, mask: seq<bool>, discounts: array<real>, bows: array<real>)
    requires Proper(l, s) && discounts.Length == |l.words| && bows.Length == |mask| && discounts != bows
    requires forall i :: 0 <= i < |l.words| ==> l.hists[i] < |mask|
    requires forall i :: 0 <= i < |l.words| && mask[l.hists[i]] ==> discounts[i] == Discount(s, s.eff[i])
    requires forall h :: 0 <= h < |mask| && mask[h] ==> bows[h] == 0.0
    modifies bows
    ensures forall h :: 0 <= h < |mask| && mask[h] ==> bows[h] == HistDisc(l, s, h)
    ensures forall h :: 0 <= h < |mask| && !mask[h] ==> bows[h] == old(bows[h])
  {
    hide Sum, DiscTerm, Discount, CountWeight;
    NothingSummed(l, s, |mask|);
    for i := 0 to |l.words|
      invariant forall h :: 0 <= h < |mask| && mask[h] ==> bows[h] == Sum(i, DiscTerm(l, s, h))
      invariant forall h :: 0 <= h < |mask| && !mask[h] ==> bows[h] == old(bows[h])
    {
      forall h | 0 <= h < |mask|
        ensures Sum(i + 1, DiscTerm(l, s, h)) == Sum(i, DiscTerm(l, s, h)) + (if l.hists[i] == h then DiscWeight(s, i) else 0.0)
      {
        CountTermSnoc(l, s, h, i);
      }
      if mask[l.hists[i]] {
        var more := s.weights[i] * discounts[i];
        assert more == DiscWeight(s, i);
        bows[l.hists[i]] := bows[l.hists[i]] + more;
      }
    }
  }

  /** Turns the discount totals of the requested histories into backoff weights. */
  method ScaleBows(l: Level, s: Smoothed, inv: seq<real>, mask: seq<bool>, bows: array<real>)
    requires Proper(l, s) && bows.Length == |mask| == |inv|
    requires forall h :: 0 <= h < |inv| ==> inv[h] == InvOf(l, s, h)
    requires forall h :: 0 <= h < |mask| && mask[h] ==> bows[h] == HistDisc(l, s, h)
    modifies bows
    ensures forall h :: 0 <= h < |mask| && mask[h] ==> bows[h] == BowOf(l, s, h)
    ensures forall h :: 0 <= h < |mask| && !mask[h] ==> bows[h] == old(bows[h])
  {
    hide HistDisc, InvOf, Proper;
    for h := 0 to bows.Length
      invariant forall g :: 0 <= g < h && mask[g] ==> bows[g] == BowOf(l, s, g)
      invariant forall g :: h <= g < |mask| && mask[g] ==> bows[g] == HistDisc(l, s, g)
      invariant forall g :: 0 <= g < |mask| && !mask[g] ==> bows[g] == old(bows[g])
    {
      if mask[h] {
        if inv[h] == 0.0 {
          bows[h] := 1.0;
        } else {
          bows[h] := bows[h] * inv[h];
        }
      }
    }
  }

  /** The probability of n-gram i; the buffer still holds its discount. */
  function FromDiscount(s: Smoothed, open: bool, i: nat, discount: real, inv: real, bow: real, boProb: real): real
    requires i < |s.eff| && i < |s.weights|
  {
    if open && s.eff[i] == 0 then 0.0
    else (if s.eff[i] == 0 then 0.0 else s.weights[i] * (s.eff[i] as real - discount) * inv) + boProb * bow
  }

  lemma FromDiscountIs(l: Level, s: Smoothed, open: bool, i: nat, inv: seq<real>, lo: seq<real>, bow: real)
    requires Inputs(l, s, inv, lo) && i < |l.words| && bow == BowOf(l, s, l.hists[i])
    ensures FromDiscount(s, open, i, Discount(s, s.eff[i]), inv[l.hists[i]], bow, lo[l.backoffs[i]])
         == ProbOf(l, s, open, i, lo[l.backoffs[i]])
  {
    hide InvOf, BowOf, Discount;
  }

  /** All probabilities and backoff weights of one order. */
  method EstimateLevel(l: Level, s: Smoothed, open: bool, inv: seq<real>, lo: seq<real>, probs: array<real>, bows: array<real>)
    requires Inputs(l, s, inv, lo) && probs.Length == |l.words| && bows.Length == |inv| && probs != bows
    modifies probs, bows
    ensures LevelEstimated(l, s, open, lo, probs[..], bows[..])
  {
    hide InvOf, BowOf, Discount, ProbOf, FromDiscount, HistDisc, CountWeight, Inverse;
    var discounts := probs;
    for i := 0 to probs.Length
      invariant forall k :: 0 <= k < i ==> discounts[k] == Discount(s, s.eff[k])
    {
      discounts[i] := Discount(s, s.eff[i]);
    }
    for h := 0 to bows.Length
      invariant forall g :: 0 <= g < h ==> bows[g] == 0.0
      invariant forall k :: 0 <= k < probs.Length ==> discounts[k] == Discount(s, s.eff[k])
    {
      bows[h] := 0.0;
    }
    var all := seq(bows.Length, _ => true);
    AddDiscounts(l, s, all, discounts, bows);
    ScaleBows(l, s, inv, all, bows);
    for i := 0 to probs.Length
      invariant forall h :: 0 <= h < bows.Length ==> bows[h] == BowOf(l, s, h)
      invariant forall k :: 0 <= k < i ==> probs[k] == ProbOf(l, s, open, k, lo[l.backoffs[k]])
      invariant forall k :: i <= k < probs.Length ==> discounts[k] == Discount(s, s.eff[k])
    {
      FromDiscountIs(l, s, open, i, inv, lo, bows[l.hists[i]]);
      probs[i] := FromDiscount(s, open, i, discounts[i], inv[l.hists[i]], bows[l.hists[i]], lo[l.backoffs[i]]);
    }
  }

  /** The requested entries of one order. Whatever the other entries of the buffers hold, the
      requested ones come out as in the full estimate from the same lower order. */
  method EstimateMasked(l: Level, s: Smoothed, open: bool, inv: seq<real>, lo: seq<real>, probMask: seq<bool>,
                        bowMask: seq<bool>, discMask: seq<bool>, probs: array<real>, bows: array<real>)
    requires Inputs(l, s, inv, lo) && probs.Length == |l.words| && bows.Length == |inv| && probs != bows
    requires |probMask| == |discMask| == probs.Length && |bowMask| == bows.Length
    requires forall i :: 0 <= i < |l.words| && probMask[i] ==> bowMask[l.hists[i]]
    requires forall i :: 0 <= i < |l.words| ==> discMask[i] == bowMask[l.hists[i]]
    modifies probs, bows
    ensures forall i :: 0 <= i < |l.words| && probMask[i] ==> probs[i] == ProbOf(l, s, open, i, lo[l.backoffs[i]])
    ensures forall h :: 0 <= h < |bowMask| && bowMask[h] ==> bows[h] == BowOf(l, s, h)
    ensures forall h :: 0 <= h < |bowMask| && !bowMask[h] ==> bows[h] == old(bows[h])
  {
    hide InvOf, BowOf, Discount, ProbOf, FromDiscount, HistDisc, CountWeight, Inverse;
    var discounts := probs;
    for i := 0 to probs.Length
      invariant forall k :: 0 <= k < i && discMask[k] ==> discounts[k] == Discount(s, s.eff[k])
      invariant forall g :: 0 <= g < |bowMask| ==> bows[g] == old(bows[g])
    {
      if discMask[i] {
        discounts[i] := Discount(s, s.eff[i]);
      }
    }
    for h := 0 to bows.Length
      invariant forall g :: 0 <= g < h && bowMask[g] ==> bows[g] == 0.0
      invariant forall g :: 0 <= g < |bowMask| && !bowMask[g] ==> bows[g] == old(bows[g])
      invariant forall k :: 0 <= k < probs.Length && discMask[k] ==> discounts[k] == Discount(s, s.eff[k])
    {
      if bowMask[h] {
        bows[h] := 0.0;
      }
    }
    AddDiscounts(l, s, bowMask, discounts, bows);
    ScaleBows(l, s, inv, bowMask, bows);
    for i := 0 to probs.Length
      invariant forall h :: 0 <= h < bows.Length && bowMask[h] ==> bows[h] == BowOf(l, s, h)
      invariant forall g :: 0 <= g < |bowMask| && !bowMask[g] ==> bows[g] == old(bows[g])
      invariant forall k :: 0 <= k < i && probMask[k] ==> probs[k] == ProbOf(l, s, open, k, lo[l.backoffs[k]])
      invariant forall k :: i <= k < probs.Length && discMask[k] ==> discounts[k] == Discount(s, s.eff[k])
    {
      if probMask[i] {
        FromDiscountIs(l, s, open, i, inv, lo, bows[l.hists[i]]);
        probs[i] := FromDiscount(s, open, i, discounts[i], inv[l.hists[i]], bows[l.hists[i]], lo[l.backoffs[i]]);
      }
    }
  }
}
