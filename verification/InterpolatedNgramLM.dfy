/** The interpolated model: estimation of all orders, mask closure, and masked estimation. */
module InterpolatedNgramLM {
  import opened Sums
  import opened Backoff
  import opened MaskedEstimation
  import opened Interpolation

  // ----- what the tables hold -----

  ghost predicate InterTables(m: Model, probs: seq<seq<real>>, bows: seq<seq<Weight>>)
  {
    && |probs| == |m.levels| && |bows| == |m.levels| - 1
    && (forall o :: 0 <= o < |m.levels| ==> |probs[o]| == Size(m.levels[o]))
    && (forall o :: 0 <= o < |m.levels| - 1 ==> |bows[o]| == Size(m.levels[o]))
  }

  /** Probabilities of order o are interpolated, backoff weights balance them. */
  ghost predicate InterLevel(m: Model, comps: seq<Component>, par: Params, exp: real -> real, o: nat,
                             lo: seq<real>, probs: seq<real>, bows: seq<Weight>)
    requires WellFormed(m) && Fits(m, comps, par) && Positive(exp) && 0 < o < |m.levels|
    requires |lo| == Size(m.levels[o - 1]) == |bows| && |probs| == Size(m.levels[o])
  {
    assert Sits(m.levels[o], m.levels[o - 1], m.vocab);
    && (forall i :: 0 <= i < |probs| ==> probs[i] == InterProb(m, comps, par, exp, o, i))
    && (forall h :: 0 <= h < |bows| ==>
          bows[h] == BowFrom(Numerator(m.levels[o], probs, h), Denominator(m.levels[o], lo, h)))
  }

  ghost predicate InterEstimated(m: Model, comps: seq<Component>, par: Params, exp: real -> real,
                                 probs: seq<seq<real>>, bows: seq<seq<Weight>>)
    requires WellFormed(m) && Fits(m, comps, par) && Positive(exp) && InterTables(m, probs, bows)
  {
    && probs[0] == [0.0]
    && forall o {:trigger probs[o]} :: 0 < o < |m.levels| ==>
         InterLevel(m, comps, par, exp, o, probs[o - 1], probs[o], bows[o - 1])
  }

  // ----- normalisation -----

  function Values(bows: seq<seq<Weight>>): (r: seq<seq<real>>)
    ensures |r| == |bows| && forall o :: 0 <= o < |bows| ==> |r[o]| == |bows[o]|
    ensures forall o, h :: 0 <= o < |bows| && 0 <= h < |bows[o]| ==> r[o][h] == Value(bows[o][h])
  {
    seq(|bows|, o requires 0 <= o < |bows| =>
      seq(|bows[o]|, h requires 0 <= h < |bows[o]| => Value(bows[o][h])))
  }

  /** Along the suffixes of the history the seen words never take the whole lower probability. */
  ghost predicate Unsaturated(m: Model, probs: seq<seq<real>>, bows: seq<seq<Weight>>, o: nat, h: nat)
    requires WellFormed(m) && InterTables(m, probs, bows) && 0 < o < |m.levels| && h < Size(m.levels[o - 1])
    decreases o
  {
    o == 1
    || (assert Sits(m.levels[o], m.levels[o - 1], m.vocab);
        assert Sits(m.levels[o - 1], m.levels[o - 2], m.vocab);
        Denominator(m.levels[o], probs[o - 1], h) != 1.0 && Unsaturated(m, probs, bows, o - 1, m.levels[o - 1].backoffs[h]))
  }

  ghost function Nothing(): int -> real
  {
    _ => 0.0
  }

  ghost function AfterHistory(m: Model, probs: seq<seq<real>>, bows: seq<seq<Weight>>, o: nat, h: nat): int -> real
    requires WellFormed(m) && InterTables(m, probs, bows) && 0 < o < |m.levels| && h < Size(m.levels[o - 1])
  {
    w => WordProb(m, Nothing(), probs, Values(bows), o, h, w)
  }

  lemma LevelParts(m: Model, o: nat)
    requires WellFormed(m) && 0 < o < |m.levels|
    ensures Sits(m.levels[o], m.levels[o - 1], m.vocab)
    ensures o > 1 ==> Sits(m.levels[o - 1], m.levels[o - 2], m.vocab)
  {
  }

  lemma UnigramTotal(m: Model, comps: seq<Component>, par: Params, exp: real -> real, probs: seq<seq<real>>, bows: seq<seq<Weight>>)
    requires WellFormed(m) && Fits(m, comps, par) && Positive(exp) && InterTables(m, probs, bows)
    requires InterEstimated(m, comps, par, exp, probs, bows)
    requires forall l :: 0 <= l < |comps| ==> |comps[l].probs| > 1 && UnigramMass(comps[l].probs[1]) == 1.0
    ensures Sum(m.vocab, AfterHistory(m, probs, bows, 1, 0)) == 1.0
  {
    hide Sum, Mixed, UnigramMass, Fits, InterProb;
    LevelParts(m, 1);
    var l, bow := m.levels[1], Values(bows)[0][0];
    assert InterLevel(m, comps, par, exp, 1, probs[0], probs[1], bows[0]) by {
      assert probs[1] == probs[1];
    }
    var low := Lower(m, Nothing(), probs, Values(bows), 1, 0);
    BackoffSum(l, 0, m.vocab, probs[1], bow, low, AfterHistory(m, probs, bows, 1, 0));
    forall w
      ensures low(w) == 0.0
    {
      assert WordProb(m, Nothing(), probs, Values(bows), 0, 0, w) == Nothing()(w);
    }
    SumZero(m.vocab, low);
    var gain := Gain(l, 0, probs[1], bow, low);
    forall i | 0 <= i < |l.words|
      ensures gain(i) == InterTerm(m, comps, par, exp)(i)
    {
      assert l.hists[i] == 0 && low(l.words[i]) == 0.0;
    }
    SumEq(|l.words|, gain, InterTerm(m, comps, par, exp));
    UnigramsNormalise(m, comps, par, exp);
  }

  /** After every history along whose suffixes no lower order is used up by seen words, the
      interpolated probabilities add up to one. */
  lemma {:induction false} InterpolationNormalises(m: Model, comps: seq<Component>, par: Params, exp: real -> real,
                                                   probs: seq<seq<real>>, bows: seq<seq<Weight>>, o: nat, h: nat)
    requires WellFormed(m) && Fits(m, comps, par) && Positive(exp) && InterTables(m, probs, bows)
    requires InterEstimated(m, comps, par, exp, probs, bows)
    requires forall l :: 0 <= l < |comps| ==> |comps[l].probs| > 1 && UnigramMass(comps[l].probs[1]) == 1.0
    requires 0 < o < |m.levels| && h < Size(m.levels[o - 1]) && Unsaturated(m, probs, bows, o, h)
    ensures Sum(m.vocab, AfterHistory(m, probs, bows, o, h)) == 1.0
    decreases o
  {
    hide Sum, UnigramMass, Fits, InterEstimated, WellFormed, Mixed, InterLevel, Denominator, Numerator;
    LevelParts(m, o);
    if o == 1 {
      EmptyHistory(m);
      UnigramTotal(m, comps, par, exp, probs, bows);
    } else {
      var g := m.levels[o - 1].backoffs[h];
      InterpolationNormalises(m, comps, par, exp, probs, bows, o - 1, g);
      HigherTotal(m, comps, par, exp, probs, bows, o, h);
    }
  }

  lemma EmptyHistory(m: Model)
    requires WellFormed(m)
    ensures |m.levels| > 1 && Size(m.levels[0]) == 1
  {
  }

  lemma HigherTotal(m: Model, comps: seq<Component>, par: Params, exp: real -> real,
                    probs: seq<seq<real>>, bows: seq<seq<Weight>>, o: nat, h: nat)
    requires WellFormed(m) && Fits(m, comps, par) && Positive(exp) && InterTables(m, probs, bows)
    requires InterEstimated(m, comps, par, exp, probs, bows)
    requires 1 < o < |m.levels| && h < Size(m.levels[o - 1])
    requires Sits(m.levels[o], m.levels[o - 1], m.vocab) && Sits(m.levels[o - 1], m.levels[o - 2], m.vocab)
    requires Denominator(m.levels[o], probs[o - 1], h) != 1.0
    requires Sum(m.vocab, AfterHistory(m, probs, bows, o - 1, m.levels[o - 1].backoffs[h])) == 1.0
    ensures Sum(m.vocab, AfterHistory(m, probs, bows, o, h)) == 1.0
  {
    hide Sum, Fits, WellFormed, Mixed, Denominator, Numerator, InterProb;
    var l := m.levels[o];
    assert InterLevel(m, comps, par, exp, o, probs[o - 1], probs[o], bows[o - 1]) by {
      assert probs[o] == probs[o];
    }
    var low := Lower(m, Nothing(), probs, Values(bows), o, h);
    SumEq(m.vocab, AfterHistory(m, probs, bows, o - 1, m.levels[o - 1].backoffs[h]), low);
    forall i | 0 <= i < |l.words| && l.hists[i] == h
      ensures probs[o - 1][l.backoffs[i]] == low(l.words[i])
    {
      SuffixProb(m, Nothing(), probs, Values(bows), o, h, i);
    }
    BowNormalises(l, h, m.vocab, probs[o], probs[o - 1], low, AfterHistory(m, probs, bows, o, h), Values(bows)[o - 1][h]);
  }

  // ----- masks -----

  /** Requested probabilities and backoff weights, and the histories whose weights they need. */
  datatype InterMasks = InterMasks(probs: seq<seq<bool>>, bows: seq<seq<bool>>, weights: seq<seq<bool>>)

  /** A requested backoff weight needs the probabilities it balances, on both sides. */
  ghost predicate BowsCovered(l: Level, bows: seq<bool>, probs: seq<bool>, boProbs: seq<bool>)
  {
    forall i :: 0 <= i < |l.words| && i < |l.hists| && i < |l.backoffs| && Requested(bows, l.hists[i]) ==>
      Requested(probs, i) && Requested(boProbs, l.backoffs[i])
  }

  /** A requested probability needs the weights of its history. */
  ghost predicate WeightsCovered(l: Level, probs: seq<bool>, weights: seq<bool>)
  {
    forall i :: 0 <= i < |probs| && i < |l.hists| && probs[i] ==> Requested(weights, l.hists[i])
  }

  ghost predicate InterShaped(m: Model, k: InterMasks)
  {
    && Shaped(m, k.probs, k.bows) && |k.weights| == |m.levels| - 1
    && (forall o :: 0 <= o < |m.levels| - 1 ==> |k.weights[o]| == Size(m.levels[o]))
  }

  ghost predicate InterClosed(m: Model, k: InterMasks)
    requires InterShaped(m, k)
  {
    forall o {:trigger k.probs[o]} :: 0 < o < |m.levels| ==> ClosedOrder(m, k, o)
  }

  ghost predicate ClosedOrder(m: Model, k: InterMasks, o: nat)
    requires InterShaped(m, k) && 0 < o < |m.levels|
  {
    && BowsCovered(m.levels[o], k.bows[o - 1], k.probs[o], k.probs[o - 1])
    && WeightsCovered(m.levels[o], k.probs[o], k.weights[o - 1])
  }

  /** Adds what the requested backoff weights of one order need. */
  method CoverBows(l: Level, bows: seq<bool>, probMask: seq<bool>, boProbMask: seq<bool>)
    returns (probs: seq<bool>, boProbs: seq<bool>)
    requires |l.hists| == |l.words| == |l.backoffs| == |probMask|
    requires forall i :: 0 <= i < |l.words| ==> l.hists[i] < |bows| && l.backoffs[i] < |boProbMask|
    ensures Within(probMask, probs) && Within(boProbMask, boProbs) && BowsCovered(l, bows, probs, boProbs)
    ensures forall p, b :: Within(probMask, p) && Within(boProbMask, b) && BowsCovered(l, bows, p, b) ==>
              Within(probs, p) && Within(boProbs, b)
  {
    probs, boProbs := probMask, boProbMask;
    for i := 0 to |probs|
      invariant Within(probMask, probs) && Within(boProbMask, boProbs)
      invariant forall j :: 0 <= j < |probs| && probs[j] && !probMask[j] ==> j < i && bows[l.hists[j]]
      invariant forall j :: 0 <= j < |boProbs| && boProbs[j] && !boProbMask[j] ==>
                  exists k :: 0 <= k < i && bows[l.hists[k]] && l.backoffs[k] == j
      invariant forall j :: 0 <= j < i && bows[l.hists[j]] ==> probs[j] && boProbs[l.backoffs[j]]
    {
      if bows[l.hists[i]] {
        probs := probs[i := true];
        boProbs := boProbs[l.backoffs[i] := true];
      }
    }
  }

  /** Covers what is needed, on top of what the fresh vector happened to hold, and nothing else. */
  ghost predicate LeastWeights(l: Level, probs: seq<bool>, initial: seq<bool>, weights: seq<bool>)
  {
    Within(initial, weights) && forall w :: Within(initial, w) && WeightsCovered(l, probs, w) ==> Within(weights, w)
  }

  method CoverWeights(l: Level, probs: seq<bool>, initial: seq<bool>) returns (weights: seq<bool>)
    requires |l.hists| == |probs| && forall i :: 0 <= i < |l.hists| ==> l.hists[i] < |initial|
    ensures WeightsCovered(l, probs, weights) && LeastWeights(l, probs, initial, weights)
  {
    weights := initial;
    for i := 0 to |probs|
      invariant Within(initial, weights)
      invariant forall j :: 0 <= j < |weights| && weights[j] && !initial[j] ==>
                  exists k :: 0 <= k < i && probs[k] && l.hists[k] == j
      invariant forall j :: 0 <= j < i && probs[j] ==> weights[l.hists[j]]
    {
      if probs[i] {
        weights := weights[l.hists[i] := true];
      }
    }
  }

  lemma MoreRequested(l: Level, bows: seq<bool>, probs: seq<bool>, boProbs: seq<bool>, more: seq<bool>)
    requires BowsCovered(l, bows, probs, boProbs) && Within(probs, more)
    ensures BowsCovered(l, bows, more, boProbs)
  {
  }

  /** The backoff weights of the orders below n are covered. */
  ghost predicate CoveredTo(m: Model, bows: seq<seq<bool>>, probs: seq<seq<bool>>, n: nat)
    requires Shaped(m, probs, bows) && n <= |m.levels|
  {
    forall o {:trigger probs[o]} :: 0 < o < n ==> BowsCovered(m.levels[o], bows[o - 1], probs[o], probs[o - 1])
  }

  /** No request that covers the backoff weights does with less. */
  ghost predicate LeastProbs(m: Model, probMasks: seq<seq<bool>>, bows: seq<seq<bool>>, probs: seq<seq<bool>>)
  {
    forall p :: Shaped(m, p, bows) && AllWithin(probMasks, p) && CoveredTo(m, bows, p, |m.levels|) ==> AllWithin(probs, p)
  }

  lemma LeastStep(m: Model, probMasks: seq<seq<bool>>, bows: seq<seq<bool>>, probs: seq<seq<bool>>, o: nat,
                  p: seq<bool>, bo: seq<bool>)
    requires Shaped(m, probs, bows) && 0 < o < |m.levels| && LeastProbs(m, probMasks, bows, probs)
    requires forall a, b :: Within(probs[o], a) && Within(probs[o - 1], b) && BowsCovered(m.levels[o], bows[o - 1], a, b) ==>
               Within(p, a) && Within(bo, b)
    ensures LeastProbs(m, probMasks, bows, probs[o := p][o - 1 := bo])
  {
    hide BowsCovered, Within;
    forall q | Shaped(m, q, bows) && AllWithin(probMasks, q) && CoveredTo(m, bows, q, |m.levels|)
      ensures AllWithin(probs[o := p][o - 1 := bo], q)
    {
      assert Within(probs[o], q[o]) && Within(probs[o - 1], q[o - 1]);
      assert BowsCovered(m.levels[o], bows[o - 1], q[o], q[o - 1]);
    }
  }

  lemma CoveredStep(m: Model, bows: seq<seq<bool>>, probs: seq<seq<bool>>, o: nat, p: seq<bool>, bo: seq<bool>)
    requires Shaped(m, probs, bows) && 0 < o < |m.levels| && CoveredTo(m, bows, probs, o)
    requires Within(probs[o], p) && Within(probs[o - 1], bo) && BowsCovered(m.levels[o], bows[o - 1], p, bo)
    ensures Shaped(m, probs[o := p][o - 1 := bo], bows) && CoveredTo(m, bows, probs[o := p][o - 1 := bo], o + 1)
  {
    hide BowsCovered;
    var probs1 := probs[o := p][o - 1 := bo];
    if o > 1 {
      assert probs[o - 1] == probs[o - 1];
      MoreRequested(m.levels[o - 1], bows[o - 2], probs[o - 1], probs[o - 2], bo);
    }
    forall q {:trigger probs1[q]} | 0 < q < o + 1
      ensures BowsCovered(m.levels[q], bows[q - 1], probs1[q], probs1[q - 1])
    {
      if q < o - 1 {
        assert probs[q] == probs1[q];
      }
    }
  }

  /** Adds everything the requested backoff weights need, order by order. */
  method CoverAllBows(m: Model, probMasks: seq<seq<bool>>, bowMasks: seq<seq<bool>>) returns (probs: seq<seq<bool>>)
    requires WellFormed(m) && Shaped(m, probMasks, bowMasks)
    ensures Shaped(m, probs, bowMasks) && AllWithin(probMasks, probs) && CoveredTo(m, bowMasks, probs, |m.levels|)
    ensures LeastProbs(m, probMasks, bowMasks, probs)
  {
    hide WellFormed, CoveredTo, AllWithin, BowsCovered, LeastProbs;
    EmptyHistory(m);
    probs := probMasks;
    NothingCovered(m, probMasks, bowMasks);
    var o := 1;
    while o < |m.levels|
      invariant 1 <= o <= |m.levels| && Shaped(m, probs, bowMasks) && AllWithin(probMasks, probs)
      invariant CoveredTo(m, bowMasks, probs, o) && LeastProbs(m, probMasks, bowMasks, probs)
    {
      LevelParts(m, o);
      var p, bo := CoverBows(m.levels[o], bowMasks[o - 1], probs[o], probs[o - 1]);
      LeastStep(m, probMasks, bowMasks, probs, o, p, bo);
      CoveredStep(m, bowMasks, probs, o, p, bo);
      WithinWider(probMasks, probs, o, p);
      WithinWider(probMasks, probs[o := p], o - 1, bo);
      probs := probs[o := p][o - 1 := bo];
      o := o + 1;
    }
  }

  lemma NothingCovered(m: Model, probs: seq<seq<bool>>, bows: seq<seq<bool>>)
    requires Shaped(m, probs, bows) && |m.levels| > 0
    ensures CoveredTo(m, bows, probs, 1) && AllWithin(probs, probs) && LeastProbs(m, probs, bows, probs)
  {
  }

  /** The histories whose weights the requested probabilities need, order by order. */
  method CoverAllWeights(m: Model, probs: seq<seq<bool>>, initial: seq<seq<bool>>) returns (weights: seq<seq<bool>>)
    requires |initial| == |m.levels| - 1 && forall o :: 0 <= o < |initial| ==> |initial[o]| == Size(m.levels[o])
    requires WellFormed(m) && |probs| == |m.levels| && forall o :: 0 <= o < |m.levels| ==> |probs[o]| == Size(m.levels[o])
    ensures |weights| == |m.levels| - 1 && forall o :: 0 <= o < |weights| ==> |weights[o]| == Size(m.levels[o])
    ensures forall o {:trigger weights[o]} :: 0 <= o < |weights| ==> WeightsCovered(m.levels[o + 1], probs[o + 1], weights[o])
    ensures forall o {:trigger weights[o]} :: 0 <= o < |weights| ==> LeastWeights(m.levels[o + 1], probs[o + 1], initial[o], weights[o])
  {
    hide WellFormed, WeightsCovered, LeastWeights;
    EmptyHistory(m);
    weights := [];
    var o := 0;
    while o < |m.levels| - 1
      invariant 0 <= o <= |m.levels| - 1 && |weights| == o
      invariant forall q :: 0 <= q < o ==> |weights[q]| == Size(m.levels[q])
      invariant forall q {:trigger weights[q]} :: 0 <= q < o ==> WeightsCovered(m.levels[q + 1], probs[q + 1], weights[q])
      invariant forall q {:trigger weights[q]} :: 0 <= q < o ==> LeastWeights(m.levels[q + 1], probs[q + 1], initial[q], weights[q])
    {
      LevelParts(m, o + 1);
      var w := CoverWeights(m.levels[o + 1], probs[o + 1], initial[o]);
      LeastSize(m.levels[o + 1], probs[o + 1], initial[o], w);
      weights := weights + [w];
      o := o + 1;
    }
  }

  lemma LeastSize(l: Level, probs: seq<bool>, initial: seq<bool>, weights: seq<bool>)
    requires LeastWeights(l, probs, initial, weights)
    ensures |weights| == |initial|
  {
  }

  /** A closed request for the given backoff weights that contains the given probabilities. */
  ghost predicate InterSuffices(m: Model, probMasks: seq<seq<bool>>, bowMasks: seq<seq<bool>>, k: InterMasks)
  {
    InterShaped(m, k) && InterClosed(m, k) && k.bows == bowMasks && AllWithin(probMasks, k.probs)
  }

  lemma LeastRequest(m: Model, probMasks: seq<seq<bool>>, bowMasks: seq<seq<bool>>, initial: seq<seq<bool>>,
                     k: InterMasks, j: InterMasks)
    requires InterShaped(m, k) && LeastProbs(m, probMasks, bowMasks, k.probs)
    requires forall o {:trigger k.weights[o]} :: 0 <= o < |k.weights| ==>
               o < |initial| && LeastWeights(m.levels[o + 1], k.probs[o + 1], initial[o], k.weights[o])
    requires InterSuffices(m, probMasks, bowMasks, j)
    ensures AllWithin(k.probs, j.probs)
    ensures AllWithin(initial, j.weights) ==> AllWithin(k.weights, j.weights)
  {
    hide BowsCovered, WeightsCovered, Within, LeastWeights;
    forall o {:trigger j.probs[o]} | 0 < o < |m.levels|
      ensures BowsCovered(m.levels[o], bowMasks[o - 1], j.probs[o], j.probs[o - 1])
    {
      assert ClosedOrder(m, j, o) by {
        assert j.probs[o] == j.probs[o];
      }
    }
    assert CoveredTo(m, bowMasks, j.probs, |m.levels|);
    forall o | 0 <= o < |k.weights| && AllWithin(initial, j.weights)
      ensures Within(k.weights[o], j.weights[o])
    {
      assert ClosedOrder(m, j, o + 1) by {
        assert j.probs[o + 1] == j.probs[o + 1];
      }
      assert LeastWeights(m.levels[o + 1], k.probs[o + 1], initial[o], k.weights[o]);
      WeightsSuffice(m.levels[o + 1], k.probs[o + 1], j.probs[o + 1], initial[o], k.weights[o], j.weights[o]);
    }
  }

  lemma WeightsSuffice(l: Level, probs: seq<bool>, more: seq<bool>, initial: seq<bool>, least: seq<bool>,
                       weights: seq<bool>)
    requires Within(probs, more) && WeightsCovered(l, more, weights)
    requires LeastWeights(l, probs, initial, least) && Within(initial, weights)
    ensures Within(least, weights)
  {
    assert WeightsCovered(l, probs, weights);
  }

  lemma WeightsOnTop(m: Model, probs: seq<seq<bool>>, initial: seq<seq<bool>>, weights: seq<seq<bool>>)
    requires |probs| == |m.levels| && |weights| == |initial| == |m.levels| - 1
    requires forall o {:trigger weights[o]} :: 0 <= o < |weights| ==>
               LeastWeights(m.levels[o + 1], probs[o + 1], initial[o], weights[o])
    ensures AllWithin(initial, weights)
  {
    forall o | 0 <= o < |initial|
      ensures Within(initial[o], weights[o])
    {
      assert LeastWeights(m.levels[o + 1], probs[o + 1], initial[o], weights[o]);
    }
  }

  /** The least closed request that contains the given one. The weight masks start from whatever
      fresh vectors hold: they cover what is needed and add nothing else. */
  method GetMask(m: Model, probMasks: seq<seq<bool>>, bowMasks: seq<seq<bool>>, initial: seq<seq<bool>>)
    returns (k: InterMasks)
    requires WellFormed(m) && Shaped(m, probMasks, bowMasks)
    requires |initial| == |m.levels| - 1 && forall o :: 0 <= o < |initial| ==> |initial[o]| == Size(m.levels[o])
    ensures InterSuffices(m, probMasks, bowMasks, k) && AllWithin(initial, k.weights)
    ensures forall j :: InterSuffices(m, probMasks, bowMasks, j) ==>
              AllWithin(k.probs, j.probs) && (AllWithin(initial, j.weights) ==> AllWithin(k.weights, j.weights))
  {
    hide WellFormed, BowsCovered, WeightsCovered, AllWithin, LeastProbs, LeastWeights;
    var probs := CoverAllBows(m, probMasks, bowMasks);
    var weights := CoverAllWeights(m, probs, initial);
    WeightsOnTop(m, probs, initial, weights);
    k := InterMasks(probs, bowMasks, weights);
    forall o | 0 < o < |m.levels|
      ensures ClosedOrder(m, k, o)
    {
      assert probs[o] == probs[o] && weights[o - 1] == weights[o - 1];
    }
    forall j | InterSuffices(m, probMasks, bowMasks, j)
      ensures AllWithin(k.probs, j.probs) && (AllWithin(initial, j.weights) ==> AllWithin(k.weights, j.weights))
    {
      LeastRequest(m, probMasks, bowMasks, initial, k, j);
    }
  }

  // ----- estimation of one order -----

  /** The components agree on the requested probabilities. */
  ghost predicate ComponentsAgree(m: Model, k: InterMasks, masked: seq<Component>, full: seq<Component>)
  {
    && |masked| == |full| && |k.probs| == |m.levels|
    && forall l :: 0 <= l < |full| ==> ComponentAgrees(m, k, masked[l], full[l])
  }

  ghost predicate ComponentAgrees(m: Model, k: InterMasks, masked: Component, full: Component)
    requires |k.probs| == |m.levels|
  {
    && masked.features == full.features && |masked.probs| == |full.probs| == |m.levels|
    && forall o :: 0 < o < |m.levels| ==> AgreesOn(k.probs[o], masked.probs[o], full.probs[o])
  }

  /** Weights of component l for the requested histories. */
  method Weigh(m: Model, comps: seq<Component>, par: Params, exp: real -> real, o: nat, l: nat, mask: seq<bool>,
               weights: array<real>, totWeights: array<real>)
    requires WellFormed(m) && Fits(m, comps, par) && 0 < o < |m.levels| && l < |comps|
    requires |mask| == Size(m.levels[o - 1]) <= weights.Length && |mask| <= totWeights.Length && weights != totWeights
    requires forall h :: 0 <= h < |mask| && mask[h] ==> totWeights[h] == TotWeight(m, comps, par, exp, o, h, l)
    modifies weights, totWeights
    ensures forall h :: 0 <= h < |mask| && mask[h] ==> weights[h] == WeightOf(m, comps, par, exp, o, h, l)
    ensures forall h :: 0 <= h < |mask| && mask[h] ==> totWeights[h] == TotWeight(m, comps, par, exp, o, h, l + 1)
  {
    hide WellFormed, WeightOf, TotWeight, FeatureSum;
    FeaturesFit(m, comps, par, o, l);
    var c, params := comps[l], par.feats[o][l];
    var bias := if l == 0 then 0.0 else par.bias[o][l];
    for h := 0 to |mask|
      invariant forall g :: 0 <= g < h ==> weights[g] == bias
      invariant forall g :: 0 <= g < |mask| ==> totWeights[g] == old(totWeights[g])
    {
      weights[h] := bias;
    }
    NoFeatures(c.features, params, o, |mask|);
    for f := 0 to |c.features|
      invariant forall h :: 0 <= h < |mask| && mask[h] ==> weights[h] == bias + FeatureSum(c.features, params, o, h, f)
      invariant forall g :: 0 <= g < |mask| ==> totWeights[g] == old(totWeights[g])
    {
      AddFeature(c.features, params, o, f, mask, weights, bias);
    }
    for h := 0 to |mask|
      invariant forall g :: 0 <= g < h && mask[g] ==> weights[g] == WeightOf(m, comps, par, exp, o, g, l)
      invariant forall g :: h <= g < |mask| && mask[g] ==> weights[g] == bias + FeatureSum(c.features, params, o, g, |c.features|)
      invariant forall g :: 0 <= g < h && mask[g] ==> totWeights[g] == TotWeight(m, comps, par, exp, o, g, l + 1)
      invariant forall g :: h <= g < |mask| ==> totWeights[g] == old(totWeights[g])
    {
      if mask[h] {
        WeightIs(m, comps, par, exp, o, h, l);
        weights[h] := exp(weights[h]);
        totWeights[h] := totWeights[h] + weights[h];
      }
    }
  }

  lemma FeaturesFit(m: Model, comps: seq<Component>, par: Params, o: nat, l: nat)
    requires Fits(m, comps, par) && 0 < o < |m.levels| && l < |comps|
    ensures |par.bias| == |par.feats| == |m.levels| && |par.bias[o]| == |par.feats[o]| == |comps|
    ensures |par.feats[o][l]| == |comps[l].features|
    ensures forall f :: 0 <= f < |comps[l].features| ==>
              |comps[l].features[f]| == |m.levels| && |comps[l].features[f][o - 1]| == Size(m.levels[o - 1])
  {
    assert ComponentFits(m, comps[l]);
    forall f | 0 <= f < |comps[l].features|
      ensures FeatureFits(m, comps[l].features[f])
    {
    }
  }

  lemma NoFeatures(features: seq<seq<seq<real>>>, params: seq<real>, o: nat, size: nat)
    requires 0 < o
    ensures forall h: nat :: h < size ==> FeatureSum(features, params, o, h, 0) == 0.0
  {
  }

  lemma WeightIs(m: Model, comps: seq<Component>, par: Params, exp: real -> real, o: nat, h: nat, l: nat)
    requires Covered(m, comps, par, o, h, l)
    requires |par.feats| == |m.levels| && |par.feats[o]| == |comps| && |par.feats[o][l]| == |comps[l].features|
    requires |par.bias| == |m.levels| && |par.bias[o]| == |comps|
    requires forall f :: 0 <= f < |comps[l].features| ==>
               |comps[l].features[f]| == |m.levels| && |comps[l].features[f][o - 1]| == Size(m.levels[o - 1])
    ensures WeightOf(m, comps, par, exp, o, h, l)
         == exp((if l == 0 then 0.0 else par.bias[o][l]) + FeatureSum(comps[l].features, par.feats[o][l], o, h, |comps[l].features|))
    ensures TotWeight(m, comps, par, exp, o, h, l + 1)
         == TotWeight(m, comps, par, exp, o, h, l) + WeightOf(m, comps, par, exp, o, h, l)
  {
    hide FeatureSum;
  }

  method AddFeature(features: seq<seq<seq<real>>>, params: seq<real>, o: nat, f: nat, mask: seq<bool>,
                    weights: array<real>, ghost bias: real)
    requires 0 < o && f < |features| == |params| && |mask| <= weights.Length
    requires forall g :: 0 <= g < |features| ==> o - 1 < |features[g]| && |mask| == |features[g][o - 1]|
    requires forall h :: 0 <= h < |mask| && mask[h] ==> weights[h] == bias + FeatureSum(features, params, o, h, f)
    modifies weights
    ensures forall h :: 0 <= h < |mask| && mask[h] ==> weights[h] == bias + FeatureSum(features, params, o, h, f + 1)
  {
    hide FeatureSum;
    FeatureStep(features, params, o, f, |mask|);
    var param := params[f];
    if param == 0.0 {
      return;
    }
    for h := 0 to |mask|
      invariant forall g :: 0 <= g < h && mask[g] ==> weights[g] == bias + FeatureSum(features, params, o, g, f + 1)
      invariant forall g :: h <= g < |mask| && mask[g] ==> weights[g] == bias + FeatureSum(features, params, o, g, f)
    {
      if mask[h] {
        var more := features[f][o - 1][h] * param;
        weights[h] := weights[h] + more;
      }
    }
  }

  lemma FeatureStep(features: seq<seq<seq<real>>>, params: seq<real>, o: nat, f: nat, size: nat)
    requires 0 < o && f < |features| == |params|
    requires forall g :: 0 <= g < |features| ==> o - 1 < |features[g]| && size == |features[g][o - 1]|
    ensures forall h: nat :: h < size ==>
              FeatureSum(features, params, o, h, f + 1)
              == FeatureSum(features, params, o, h, f) + (if params[f] == 0.0 then 0.0 else features[f][o - 1][h] * params[f])
  {
  }

  lemma MixStep(m: Model, comps: seq<Component>, par: Params, exp: real -> real, o: nat, i: nat, l: nat)
    requires 0 < o < |m.levels| && l < |comps| && Fits(m, comps, par)
    requires i < Size(m.levels[o]) && i < |m.levels[o].hists| && m.levels[o].hists[i] < Size(m.levels[o - 1])
    ensures o < |comps[l].probs| && i < |comps[l].probs[o]|
    ensures Mix(m, comps, par, exp, o, i, l + 1)
         == Mix(m, comps, par, exp, o, i, l) + comps[l].probs[o][i] * WeightOf(m, comps, par, exp, o, m.levels[o].hists[i], l)
  {
    hide WeightOf;
    assert ComponentFits(m, comps[l]);
  }

  method AddProbs(m: Model, comps: seq<Component>, par: Params, exp: real -> real, o: nat, l: nat, mask: seq<bool>,
                  weightMask: seq<bool>, weights: array<real>, probs: array<real>)
    requires WellFormed(m) && Fits(m, comps, par) && 0 < o < |m.levels| && l < |comps|
    requires Sits(m.levels[o], m.levels[o - 1], m.vocab) && WeightsCovered(m.levels[o], mask, weightMask)
    requires |mask| == Size(m.levels[o]) == probs.Length && |weightMask| == Size(m.levels[o - 1]) == weights.Length
    requires weights != probs
    requires forall h :: 0 <= h < |weightMask| && weightMask[h] ==> weights[h] == WeightOf(m, comps, par, exp, o, h, l)
    requires forall i :: 0 <= i < |mask| && mask[i] ==> probs[i] == Mix(m, comps, par, exp, o, i, l)
    modifies probs
    ensures forall i :: 0 <= i < |mask| && mask[i] ==> probs[i] == Mix(m, comps, par, exp, o, i, l + 1)
  {
    hide WellFormed, Fits, Mix, WeightOf, TotWeight;
    for i := 0 to probs.Length
      invariant forall j :: 0 <= j < i && mask[j] ==> probs[j] == Mix(m, comps, par, exp, o, j, l + 1)
      invariant forall j :: i <= j < |mask| && mask[j] ==> probs[j] == Mix(m, comps, par, exp, o, j, l)
    {
      MixStep(m, comps, par, exp, o, i, l);
      if mask[i] {
        assert weightMask[m.levels[o].hists[i]];
        var more := comps[l].probs[o][i] * weights[m.levels[o].hists[i]];
        probs[i] := probs[i] + more;
      }
    }
  }

  lemma NothingMixed(m: Model, comps: seq<Component>, par: Params, exp: real -> real, o: nat)
    requires 0 < o < |m.levels| && Fits(m, comps, par) && Sits(m.levels[o], m.levels[o - 1], m.vocab)
    ensures forall h: nat :: h < Size(m.levels[o - 1]) ==> TotWeight(m, comps, par, exp, o, h, 0) == 0.0
    ensures forall i: nat :: i < Size(m.levels[o]) ==> Mix(m, comps, par, exp, o, i, 0) == 0.0
  {
    hide Fits;
  }

  /** The requested probabilities of one order. */
  method InterpolateProbs(m: Model, comps: seq<Component>, par: Params, exp: real -> real, o: nat, mask: seq<bool>,
                          weightMask: seq<bool>, weights: array<real>, totWeights: array<real>, probs: array<real>)
    requires WellFormed(m) && Fits(m, comps, par) && Positive(exp) && 0 < o < |m.levels|
    requires Sits(m.levels[o], m.levels[o - 1], m.vocab) && WeightsCovered(m.levels[o], mask, weightMask)
    requires |mask| == Size(m.levels[o]) == probs.Length
    requires |weightMask| == Size(m.levels[o - 1]) == weights.Length == totWeights.Length
    requires weights != totWeights && totWeights != probs && probs != weights
    modifies weights, totWeights, probs
    ensures forall i :: 0 <= i < |mask| && mask[i] ==> probs[i] == InterProb(m, comps, par, exp, o, i)
  {
    hide WellFormed, Fits, Positive, Mix, TotWeight, WeightOf, WeightsCovered, InterProb;
    for h := 0 to totWeights.Length
      invariant forall g :: 0 <= g < h ==> totWeights[g] == 0.0
    {
      totWeights[h] := 0.0;
    }
    for i := 0 to probs.Length
      invariant forall g :: 0 <= g < totWeights.Length ==> totWeights[g] == 0.0
      invariant forall j :: 0 <= j < i ==> probs[j] == 0.0
    {
      probs[i] := 0.0;
    }
    NothingMixed(m, comps, par, exp, o);
    for l := 0 to |comps|
      invariant forall h :: 0 <= h < |weightMask| && weightMask[h] ==> totWeights[h] == TotWeight(m, comps, par, exp, o, h, l)
      invariant forall i :: 0 <= i < |mask| && mask[i] ==> probs[i] == Mix(m, comps, par, exp, o, i, l)
    {
      Weigh(m, comps, par, exp, o, l, weightMask, weights, totWeights);
      AddProbs(m, comps, par, exp, o, l, mask, weightMask, weights, probs);
    }
    for i := 0 to probs.Length
      invariant forall h :: 0 <= h < |weightMask| && weightMask[h] ==> totWeights[h] == TotWeight(m, comps, par, exp, o, h, |comps|)
      invariant forall j :: 0 <= j < i && mask[j] ==> probs[j] == InterProb(m, comps, par, exp, o, j)
      invariant forall j :: i <= j < |mask| && mask[j] ==> probs[j] == Mix(m, comps, par, exp, o, j, |comps|)
    {
      if mask[i] {
        InterProbIs(m, comps, par, exp, o, i, mask, weightMask);
        probs[i] := probs[i] / totWeights[m.levels[o].hists[i]];
      }
    }
  }

  lemma InterProbIs(m: Model, comps: seq<Component>, par: Params, exp: real -> real, o: nat, i: nat, mask: seq<bool>,
                    weightMask: seq<bool>)
    requires Fits(m, comps, par) && Positive(exp) && 0 < o < |m.levels|
    requires Sits(m.levels[o], m.levels[o - 1], m.vocab) && WeightsCovered(m.levels[o], mask, weightMask)
    requires |mask| == Size(m.levels[o]) && |weightMask| == Size(m.levels[o - 1]) && i < |mask| && mask[i]
    ensures var h := m.levels[o].hists[i];
            && weightMask[h] && TotWeight(m, comps, par, exp, o, h, |comps|) != 0.0
            && InterProb(m, comps, par, exp, o, i)
               == Mix(m, comps, par, exp, o, i, |comps|) / TotWeight(m, comps, par, exp, o, h, |comps|)
  {
    hide Mix, TotWeight, Positive;
    TotWeightPositive(m, comps, par, exp, o, m.levels[o].hists[i], |comps|);
  }

  lemma SeenStep(l: Level, probs: seq<real>, lo: seq<real>, h: nat, i: nat)
    requires |l.hists| == |l.words| == |l.backoffs| == |probs| && i < |l.words|
    requires forall j :: 0 <= j < |l.backoffs| ==> l.backoffs[j] < |lo|
    ensures Sum(i + 1, SeenTerm(l, probs, h)) == Sum(i, SeenTerm(l, probs, h)) + (if l.hists[i] == h then probs[i] else 0.0)
    ensures Sum(i + 1, LowerTerm(l, lo, h)) == Sum(i, LowerTerm(l, lo, h)) + (if l.hists[i] == h then lo[l.backoffs[i]] else 0.0)
    ensures Sum(0, SeenTerm(l, probs, h)) == 0.0 && Sum(0, LowerTerm(l, lo, h)) == 0.0
  {
  }

  lemma NothingSeen(l: Level, probs: seq<real>, lo: seq<real>)
    requires |l.hists| == |l.words| == |l.backoffs| == |probs|
    requires forall j :: 0 <= j < |l.backoffs| ==> l.backoffs[j] < |lo|
    ensures forall h: nat :: Sum(0, SeenTerm(l, probs, h)) == 0.0 && Sum(0, LowerTerm(l, lo, h)) == 0.0
  {
  }

  /** The requested backoff weights of one order, from the sums over seen words. */
  method BalanceBows(l: Level, probs: seq<real>, lo: seq<real>, mask: seq<bool>, numerator: array<real>,
                     denominator: array<real>, bows: array<Weight>)
    requires |l.hists| == |l.words| == |l.backoffs| == |probs| && |mask| == bows.Length
    requires numerator.Length == denominator.Length == bows.Length && numerator != denominator
    requires forall j :: 0 <= j < |l.words| ==> l.backoffs[j] < |lo| && l.hists[j] < |mask|
    modifies numerator, denominator, bows
    ensures forall h :: 0 <= h < |mask| && mask[h] ==> bows[h] == BowFrom(Numerator(l, probs, h), Denominator(l, lo, h))
    ensures forall h :: 0 <= h < |mask| && !mask[h] ==> bows[h] == old(bows[h])
  {
    hide Sum, SeenTerm, LowerTerm, BowFrom;
    for h := 0 to numerator.Length
      invariant forall g :: 0 <= g < h ==> numerator[g] == 0.0 && denominator[g] == 0.0
      invariant forall g :: 0 <= g < |mask| ==> bows[g] == old(bows[g])
    {
      numerator[h], denominator[h] := 0.0, 0.0;
    }
    NothingSeen(l, probs, lo);
    for i := 0 to |probs|
      invariant forall h :: 0 <= h < |mask| && mask[h] ==> numerator[h] == Sum(i, SeenTerm(l, probs, h))
      invariant forall h :: 0 <= h < |mask| && mask[h] ==> denominator[h] == Sum(i, LowerTerm(l, lo, h))
      invariant forall g :: 0 <= g < |mask| ==> bows[g] == old(bows[g])
    {
      forall h | 0 <= h < |mask|
        ensures Sum(i + 1, SeenTerm(l, probs, h)) == Sum(i, SeenTerm(l, probs, h)) + (if l.hists[i] == h then probs[i] else 0.0)
        ensures Sum(i + 1, LowerTerm(l, lo, h)) == Sum(i, LowerTerm(l, lo, h)) + (if l.hists[i] == h then lo[l.backoffs[i]] else 0.0)
      {
        SeenStep(l, probs, lo, h, i);
      }
      if mask[l.hists[i]] {
        numerator[l.hists[i]] := numerator[l.hists[i]] + probs[i];
        denominator[l.hists[i]] := denominator[l.hists[i]] + lo[l.backoffs[i]];
      }
    }
    for h := 0 to bows.Length
      invariant forall g :: 0 <= g < |mask| && mask[g] ==> numerator[g] == Numerator(l, probs, g) && denominator[g] == Denominator(l, lo, g)
      invariant forall g :: 0 <= g < h && mask[g] ==> bows[g] == BowFrom(Numerator(l, probs, g), Denominator(l, lo, g))
      invariant forall g :: h <= g < |mask| || (0 <= g < |mask| && !mask[g]) ==> bows[g] == old(bows[g])
    {
      if mask[h] {
        bows[h] := BowFrom(numerator[h], denominator[h]);
      }
    }
  }

  // ----- masked refines full -----

  lemma {:induction false} WeightsAgree(m: Model, masked: seq<Component>, full: seq<Component>, par: Params, exp: real -> real,
                                        k: InterMasks, o: nat, h: nat, n: nat)
    requires 0 < o < |m.levels| && n <= |full| && Fits(m, full, par) && Fits(m, masked, par)
    requires h < Size(m.levels[o - 1]) && ComponentsAgree(m, k, masked, full)
    ensures TotWeight(m, masked, par, exp, o, h, n) == TotWeight(m, full, par, exp, o, h, n)
    ensures n < |full| ==> WeightOf(m, masked, par, exp, o, h, n) == WeightOf(m, full, par, exp, o, h, n)
  {
    hide Fits, FeatureSum;
    if n < |full| {
      assert ComponentAgrees(m, k, masked[n], full[n]);
    }
    if n > 0 {
      WeightsAgree(m, masked, full, par, exp, k, o, h, n - 1);
    }
  }

  lemma {:induction false} MixesAgree(m: Model, masked: seq<Component>, full: seq<Component>, par: Params, exp: real -> real,
                                      k: InterMasks, o: nat, i: nat, n: nat)
    requires 0 < o < |m.levels| && n <= |full| && Fits(m, full, par) && Fits(m, masked, par)
    requires Sits(m.levels[o], m.levels[o - 1], m.vocab) && i < Size(m.levels[o])
    requires ComponentsAgree(m, k, masked, full) && |k.probs[o]| == Size(m.levels[o]) && k.probs[o][i]
    ensures Mix(m, masked, par, exp, o, i, n) == Mix(m, full, par, exp, o, i, n)
  {
    hide Fits, WeightOf;
    if n > 0 {
      MixesAgree(m, masked, full, par, exp, k, o, i, n - 1);
      WeightsAgree(m, masked, full, par, exp, k, o, m.levels[o].hists[i], n - 1);
      assert ComponentAgrees(m, k, masked[n - 1], full[n - 1]);
      assert AgreesOn(k.probs[o], masked[n - 1].probs[o], full[n - 1].probs[o]);
    }
  }

  /** A requested probability depends only on the requested part of the components. */
  lemma InterProbsAgree(m: Model, masked: seq<Component>, full: seq<Component>, par: Params, exp: real -> real,
                        k: InterMasks, o: nat, i: nat)
    requires 0 < o < |m.levels| && Fits(m, full, par) && Fits(m, masked, par) && Positive(exp)
    requires Sits(m.levels[o], m.levels[o - 1], m.vocab) && i < Size(m.levels[o])
    requires ComponentsAgree(m, k, masked, full) && |k.probs[o]| == Size(m.levels[o]) && k.probs[o][i]
    ensures InterProb(m, masked, par, exp, o, i) == InterProb(m, full, par, exp, o, i)
  {
    hide WeightOf, Mix, TotWeight, Positive;
    MixesAgree(m, masked, full, par, exp, k, o, i, |full|);
    WeightsAgree(m, masked, full, par, exp, k, o, m.levels[o].hists[i], |full|);
    TotWeightPositive(m, full, par, exp, o, m.levels[o].hists[i], |full|);
  }

  /** A requested backoff weight depends only on requested probabilities. */
  lemma BowsAgree(l: Level, k: seq<bool>, mask: seq<bool>, loMask: seq<bool>, probs: seq<real>, lo: seq<real>,
                  fullProbs: seq<real>, fullLo: seq<real>, h: nat)
    requires |l.hists| == |l.words| == |l.backoffs| == |probs| && forall j :: 0 <= j < |l.backoffs| ==> l.backoffs[j] < |lo|
    requires h < |k| && k[h] && BowsCovered(l, k, mask, loMask)
    requires AgreesOn(mask, probs, fullProbs) && AgreesOn(loMask, lo, fullLo)
    ensures Numerator(l, probs, h) == Numerator(l, fullProbs, h) && Denominator(l, lo, h) == Denominator(l, fullLo, h)
  {
    hide Sum;
    forall i | 0 <= i < |l.words| && l.hists[i] == h
      ensures probs[i] == fullProbs[i] && lo[l.backoffs[i]] == fullLo[l.backoffs[i]]
    {
      assert Requested(k, l.hists[i]);
    }
    SumEq(|l.words|, SeenTerm(l, probs, h), SeenTerm(l, fullProbs, h));
    SumEq(|l.words|, LowerTerm(l, lo, h), LowerTerm(l, fullLo, h));
  }

  ghost predicate AgreesOnWeights(mask: seq<bool>, a: seq<Weight>, b: seq<Weight>)
  {
    |mask| == |a| == |b| && forall i :: 0 <= i < |mask| && mask[i] ==> a[i] == b[i]
  }

  // ----- the whole estimate -----

  /** The requested probabilities of all orders. */
  method EstimateAllProbs(m: Model, comps: seq<Component>, par: Params, exp: real -> real, k: InterMasks, probs0: seq<seq<real>>)
    returns (probs: seq<seq<real>>)
    requires WellFormed(m) && Fits(m, comps, par) && Positive(exp) && InterShaped(m, k) && InterClosed(m, k)
    requires |probs0| == |m.levels| && forall o :: 0 <= o < |m.levels| ==> |probs0[o]| == Size(m.levels[o])
    ensures |probs| == |m.levels| && forall o :: 0 <= o < |m.levels| ==> |probs[o]| == Size(m.levels[o])
    ensures probs[0] == probs0[0]
    ensures forall o {:trigger probs[o]} :: 0 < o < |m.levels| ==>
              ProbsRequested(m, comps, par, exp, o, k.probs[o], probs[o])
  {
    hide WellFormed, Fits, Positive, InterClosed, ProbsRequested, WeightsCovered, BowsCovered;
    EmptyHistory(m);
    probs := probs0;
    var o := 1;
    while o < |m.levels|
      invariant 1 <= o <= |m.levels| && |probs| == |m.levels| && probs[0] == probs0[0]
      invariant forall q :: 0 <= q < |m.levels| ==> |probs[q]| == Size(m.levels[q])
      invariant forall q {:trigger probs[q]} :: 0 < q < o ==> ProbsRequested(m, comps, par, exp, q, k.probs[q], probs[q])
    {
      MaskAt(m, k, o);
      var p := EstimateProbs(m, comps, par, exp, o, k.probs[o], k.weights[o - 1], probs[o]);
      probs := probs[o := p];
      o := o + 1;
    }
  }

  /** The requested backoff weights of all orders. */
  method EstimateAllBows(m: Model, bowMasks: seq<seq<bool>>, probs: seq<seq<real>>, bows0: seq<seq<Weight>>)
    returns (bows: seq<seq<Weight>>)
    requires WellFormed(m) && InterTables(m, probs, bows0) && |bowMasks| == |m.levels| - 1
    requires forall o :: 0 <= o < |m.levels| - 1 ==> |bowMasks[o]| == Size(m.levels[o])
    ensures InterTables(m, probs, bows)
    ensures forall o {:trigger bows[o]} :: 0 <= o < |m.levels| - 1 ==>
              BowsRequested(m.levels[o + 1], bowMasks[o], probs[o + 1], probs[o], bows[o])
  {
    hide WellFormed, BowsRequested;
    EmptyHistory(m);
    bows := bows0;
    var o := 1;
    while o < |m.levels|
      invariant 1 <= o <= |m.levels| && InterTables(m, probs, bows)
      invariant forall q {:trigger bows[q]} :: 0 <= q < o - 1 ==>
                  BowsRequested(m.levels[q + 1], bowMasks[q], probs[q + 1], probs[q], bows[q])
    {
      LevelParts(m, o);
      var b := EstimateBows(m, o, bowMasks[o - 1], probs[o], probs[o - 1], bows[o - 1]);
      bows := bows[o - 1 := b];
      o := o + 1;
    }
  }

  /** All orders' probabilities, then all backoff weights, each restricted to a mask. */
  method EstimateRequested(m: Model, comps: seq<Component>, par: Params, exp: real -> real, k: InterMasks,
                           probs0: seq<seq<real>>, bows0: seq<seq<Weight>>)
    returns (probs: seq<seq<real>>, bows: seq<seq<Weight>>)
    requires WellFormed(m) && Fits(m, comps, par) && Positive(exp) && InterTables(m, probs0, bows0)
    requires InterShaped(m, k) && InterClosed(m, k)
    ensures InterTables(m, probs, bows) && probs[0] == probs0[0]
    ensures forall o {:trigger probs[o]} :: 0 < o < |m.levels| ==>
              ProbsRequested(m, comps, par, exp, o, k.probs[o], probs[o])
    ensures forall o {:trigger bows[o]} :: 0 <= o < |m.levels| - 1 ==>
              BowsRequested(m.levels[o + 1], k.bows[o], probs[o + 1], probs[o], bows[o])
  {
    hide WellFormed, Fits, Positive, InterClosed, ProbsRequested, BowsRequested;
    probs := EstimateAllProbs(m, comps, par, exp, k, probs0);
    bows := EstimateAllBows(m, k.bows, probs, bows0);
  }

  ghost predicate ProbsRequested(m: Model, comps: seq<Component>, par: Params, exp: real -> real, o: nat,
                                 mask: seq<bool>, probs: seq<real>)
    requires WellFormed(m) && Fits(m, comps, par) && Positive(exp) && 0 < o < |m.levels|
  {
    assert Sits(m.levels[o], m.levels[o - 1], m.vocab);
    && |mask| == |probs| == Size(m.levels[o])
    && forall i :: 0 <= i < |mask| && mask[i] ==> probs[i] == InterProb(m, comps, par, exp, o, i)
  }

  ghost predicate BowsRequested(l: Level, mask: seq<bool>, probs: seq<real>, lo: seq<real>, bows: seq<Weight>)
  {
    && |l.hists| == |l.words| == |l.backoffs| == |probs| && |mask| == |bows|
    && (forall j :: 0 <= j < |l.backoffs| ==> l.backoffs[j] < |lo|)
    && forall h :: 0 <= h < |mask| && mask[h] ==> bows[h] == BowFrom(Numerator(l, probs, h), Denominator(l, lo, h))
  }

  lemma MaskAt(m: Model, k: InterMasks, o: nat)
    requires WellFormed(m) && InterShaped(m, k) && InterClosed(m, k) && 0 < o < |m.levels|
    ensures |k.probs| == |m.levels| == |k.bows| + 1 == |k.weights| + 1
    ensures Sits(m.levels[o], m.levels[o - 1], m.vocab) && WeightsCovered(m.levels[o], k.probs[o], k.weights[o - 1])
    ensures BowsCovered(m.levels[o], k.bows[o - 1], k.probs[o], k.probs[o - 1])
    ensures |k.probs[o]| == Size(m.levels[o]) && |k.probs[o - 1]| == |k.weights[o - 1]| == |k.bows[o - 1]| == Size(m.levels[o - 1])
  {
    hide WeightsCovered, BowsCovered;
    LevelParts(m, o);
    assert k.probs[o] == k.probs[o];
  }

  method EstimateProbs(m: Model, comps: seq<Component>, par: Params, exp: real -> real, o: nat, mask: seq<bool>,
                       weightMask: seq<bool>, probs: seq<real>) returns (p: seq<real>)
    requires WellFormed(m) && Fits(m, comps, par) && Positive(exp) && 0 < o < |m.levels|
    requires Sits(m.levels[o], m.levels[o - 1], m.vocab) && WeightsCovered(m.levels[o], mask, weightMask)
    requires |mask| == Size(m.levels[o]) == |probs| && |weightMask| == Size(m.levels[o - 1])
    ensures |p| == |probs| && ProbsRequested(m, comps, par, exp, o, mask, p)
  {
    hide WellFormed, Fits, Positive, WeightsCovered, InterProb;
    var weights, totWeights := new real[|weightMask|], new real[|weightMask|];
    var buffer := new real[|probs|](i requires 0 <= i < |probs| => probs[i]);
    InterpolateProbs(m, comps, par, exp, o, mask, weightMask, weights, totWeights, buffer);
    p := buffer[..];
  }

  method EstimateBows(m: Model, o: nat, mask: seq<bool>, probs: seq<real>, lo: seq<real>, bows: seq<Weight>)
    returns (b: seq<Weight>)
    requires 0 < o < |m.levels| && Sits(m.levels[o], m.levels[o - 1], m.vocab)
    requires |probs| == Size(m.levels[o]) && |lo| == |mask| == |bows| == Size(m.levels[o - 1])
    ensures |b| == |bows| && BowsRequested(m.levels[o], mask, probs, lo, b)
  {
    hide BowFrom, Numerator, Denominator;
    var numerator, denominator := new real[|mask|], new real[|mask|];
    var buffer := new Weight[|bows|](h requires 0 <= h < |bows| => bows[h]);
    BalanceBows(m.levels[o], probs, lo, mask, numerator, denominator, buffer);
    b := buffer[..];
  }

  /** The request for everything. */
  function AllRequested(m: Model): InterMasks
    requires |m.levels| > 0
  {
    InterMasks(seq(|m.levels|, o requires 0 <= o < |m.levels| => seq(Size(m.levels[o]), _ => true)),
               seq(|m.levels| - 1, o requires 0 <= o < |m.levels| - 1 => seq(Size(m.levels[o]), _ => true)),
               seq(|m.levels| - 1, o requires 0 <= o < |m.levels| - 1 => seq(Size(m.levels[o]), _ => true)))
  }

  lemma AllRequestedClosed(m: Model)
    requires WellFormed(m)
    ensures InterShaped(m, AllRequested(m)) && InterClosed(m, AllRequested(m))
  {
    hide WellFormed, BowsCovered, WeightsCovered;
    EmptyHistory(m);
    var k := AllRequested(m);
    forall o | 0 < o < |m.levels|
      ensures ClosedOrder(m, k, o)
    {
      LevelParts(m, o);
      AllCovered(m.levels[o], k.bows[o - 1], k.probs[o], k.probs[o - 1], k.weights[o - 1]);
    }
  }

  lemma AllCovered(l: Level, bows: seq<bool>, probs: seq<bool>, boProbs: seq<bool>, weights: seq<bool>)
    requires |l.hists| == |l.words| == |l.backoffs| == |probs|
    requires forall i :: 0 <= i < |probs| ==> probs[i] && l.backoffs[i] < |boProbs| && l.hists[i] < |weights|
    requires forall h :: 0 <= h < |boProbs| ==> boProbs[h]
    requires forall h :: 0 <= h < |weights| ==> weights[h]
    ensures BowsCovered(l, bows, probs, boProbs) && WeightsCovered(l, probs, weights)
  {
  }

  /** The full estimate. */
  method Estimate(m: Model, comps: seq<Component>, par: Params, exp: real -> real, probs0: seq<seq<real>>, bows0: seq<seq<Weight>>)
    returns (probs: seq<seq<real>>, bows: seq<seq<Weight>>)
    requires WellFormed(m) && Fits(m, comps, par) && Positive(exp) && InterTables(m, probs0, bows0) && probs0[0] == [0.0]
    ensures InterTables(m, probs, bows) && InterEstimated(m, comps, par, exp, probs, bows)
  {
    hide WellFormed, Fits, Positive, InterClosed, InterProb, BowFrom, Numerator, Denominator;
    EmptyHistory(m);
    AllRequestedClosed(m);
    probs, bows := EstimateRequested(m, comps, par, exp, AllRequested(m), probs0, bows0);
    forall o | 0 < o < |m.levels|
      ensures InterLevel(m, comps, par, exp, o, probs[o - 1], probs[o], bows[o - 1])
    {
      LevelParts(m, o);
      assert probs[o] == probs[o];
      assert ProbsRequested(m, comps, par, exp, o, AllRequested(m).probs[o], probs[o]);
      assert bows[o - 1] == bows[o - 1];
      assert BowsRequested(m.levels[o], AllRequested(m).bows[o - 1], probs[o], probs[o - 1], bows[o - 1]);
    }
  }

  /** The masked estimate agrees with any full one on every requested entry, from components
      that agree with the full ones on the closed request. */
  method EstimateMasked(m: Model, masked: seq<Component>, par: Params, exp: real -> real, k: InterMasks,
                        probs0: seq<seq<real>>, bows0: seq<seq<Weight>>, ghost full: seq<Component>,
                        ghost fullProbs: seq<seq<real>>, ghost fullBows: seq<seq<Weight>>)
    returns (probs: seq<seq<real>>, bows: seq<seq<Weight>>)
    requires WellFormed(m) && Fits(m, masked, par) && Fits(m, full, par) && Positive(exp)
    requires InterTables(m, probs0, bows0) && probs0[0] == [0.0]
    requires InterShaped(m, k) && InterClosed(m, k)
    requires ComponentsAgree(m, k, masked, full)
    requires InterTables(m, fullProbs, fullBows) && InterEstimated(m, full, par, exp, fullProbs, fullBows)
    ensures InterTables(m, probs, bows)
    ensures forall o :: 0 < o < |m.levels| ==> InterAgreesAt(k, o, probs, bows, fullProbs, fullBows)
  {
    hide WellFormed, Fits, Positive, InterClosed, ComponentsAgree, InterEstimated, ProbsRequested, BowsRequested,
         AgreesOn, AgreesOnWeights;
    EmptyHistory(m);
    probs, bows := EstimateRequested(m, masked, par, exp, k, probs0, bows0);
    OrderZero(m, full, par, exp, k, fullProbs, fullBows, probs[0]);
    forall o | 0 <= o < |m.levels|
      ensures AgreesOn(k.probs[o], probs[o], fullProbs[o])
    {
      if o > 0 {
        OrderAgrees(m, masked, full, par, exp, k, o, probs[o], fullProbs, fullBows);
      }
    }
    forall o | 0 < o < |m.levels|
      ensures InterAgreesAt(k, o, probs, bows, fullProbs, fullBows)
    {
      assert bows[o - 1] == bows[o - 1];
      BowOrderAgrees(m, full, par, exp, k, o, probs, bows[o - 1], fullProbs, fullBows);
    }
  }

  ghost predicate InterAgreesAt(k: InterMasks, o: nat, probs: seq<seq<real>>, bows: seq<seq<Weight>>,
                                fullProbs: seq<seq<real>>, fullBows: seq<seq<Weight>>)
    requires 0 < o < |k.probs| == |probs| == |fullProbs|
    requires |k.bows| == |bows| == |fullBows| == |k.probs| - 1
  {
    AgreesOn(k.probs[o], probs[o], fullProbs[o]) && AgreesOnWeights(k.bows[o - 1], bows[o - 1], fullBows[o - 1])
  }

  lemma OrderZero(m: Model, full: seq<Component>, par: Params, exp: real -> real, k: InterMasks,
                  fullProbs: seq<seq<real>>, fullBows: seq<seq<Weight>>, p: seq<real>)
    requires WellFormed(m) && Fits(m, full, par) && Positive(exp) && InterTables(m, fullProbs, fullBows)
    requires InterEstimated(m, full, par, exp, fullProbs, fullBows) && InterShaped(m, k) && p == [0.0]
    ensures |k.probs| > 0 && AgreesOn(k.probs[0], p, fullProbs[0])
  {
    hide Fits, Positive, InterLevel;
  }

  lemma OrderAgrees(m: Model, masked: seq<Component>, full: seq<Component>, par: Params, exp: real -> real, k: InterMasks,
                    o: nat, probs: seq<real>, fullProbs: seq<seq<real>>, fullBows: seq<seq<Weight>>)
    requires WellFormed(m) && Fits(m, masked, par) && Fits(m, full, par) && Positive(exp) && InterShaped(m, k)
    requires ComponentsAgree(m, k, masked, full) && 0 < o < |m.levels|
    requires InterTables(m, fullProbs, fullBows) && InterEstimated(m, full, par, exp, fullProbs, fullBows)
    requires |k.probs| == |m.levels| && ProbsRequested(m, masked, par, exp, o, k.probs[o], probs)
    ensures AgreesOn(k.probs[o], probs, fullProbs[o])
  {
    hide WellFormed, Fits, Positive, ComponentsAgree, InterProb, InterClosed, BowFrom;
    LevelParts(m, o);
    assert InterLevel(m, full, par, exp, o, fullProbs[o - 1], fullProbs[o], fullBows[o - 1]) by {
      assert fullProbs[o] == fullProbs[o];
    }
    forall i | 0 <= i < |probs| && k.probs[o][i]
      ensures probs[i] == fullProbs[o][i]
    {
      InterProbsAgree(m, masked, full, par, exp, k, o, i);
    }
  }

  lemma BowOrderAgrees(m: Model, full: seq<Component>, par: Params, exp: real -> real, k: InterMasks, o: nat,
                       probs: seq<seq<real>>, bows: seq<Weight>, fullProbs: seq<seq<real>>, fullBows: seq<seq<Weight>>)
    requires WellFormed(m) && Fits(m, full, par) && Positive(exp) && InterShaped(m, k) && InterClosed(m, k) && 0 < o < |m.levels|
    requires InterTables(m, fullProbs, fullBows) && InterEstimated(m, full, par, exp, fullProbs, fullBows)
    requires |probs| == |k.probs| == |m.levels| == |k.bows| + 1
    requires AgreesOn(k.probs[o], probs[o], fullProbs[o]) && AgreesOn(k.probs[o - 1], probs[o - 1], fullProbs[o - 1])
    requires BowsRequested(m.levels[o], k.bows[o - 1], probs[o], probs[o - 1], bows)
    ensures AgreesOnWeights(k.bows[o - 1], bows, fullBows[o - 1])
  {
    hide WellFormed, Fits, Positive, InterProb, InterClosed, BowFrom, BowsCovered, AgreesOn, Numerator, Denominator;
    MaskAt(m, k, o);
    assert InterLevel(m, full, par, exp, o, fullProbs[o - 1], fullProbs[o], fullBows[o - 1]) by {
      assert fullProbs[o] == fullProbs[o];
    }
    forall h | 0 <= h < |bows| && k.bows[o - 1][h]
      ensures bows[h] == fullBows[o - 1][h]
    {
      BowsAgree(m.levels[o], k.bows[o - 1], k.probs[o], k.probs[o - 1], probs[o], probs[o - 1],
                fullProbs[o], fullProbs[o - 1], h);
    }
  }
}
