/** Estimation of all orders, in full and restricted to a closed request. */
module MaskedEstimation {
  import opened Sums
  import opened Backoff
  import opened KneserNey
  import opened KneserNeyModel
  import opened KneserNeySmoothing

  // ----- masks -----

  /** Requested probabilities, backoff weights and, derived from them, discounts. */
  datatype Masks = Masks(probs: seq<seq<bool>>, bows: seq<seq<bool>>, discs: seq<seq<bool>>)

  ghost predicate Shaped(m: Model, probs: seq<seq<bool>>, bows: seq<seq<bool>>)
  {
    && |probs| == |m.levels| && |bows| == |m.levels| - 1
    && (forall o :: 0 <= o < |m.levels| ==> |probs[o]| == Size(m.levels[o]))
    && (forall o :: 0 <= o < |m.levels| - 1 ==> |bows[o]| == Size(m.levels[o]))
  }

  /** Every requested probability of l has its backoff probability and history weight requested. */
  ghost predicate ClosedAt(l: Level, probs: seq<bool>, boProbs: seq<bool>, boBows: seq<bool>)
  {
    forall i :: 0 <= i < |probs| && i < |l.backoffs| && i < |l.hists| && probs[i] ==>
      Requested(boProbs, l.backoffs[i]) && Requested(boBows, l.hists[i])
  }

  predicate Requested(mask: seq<bool>, i: nat)
  {
    i < |mask| && mask[i]
  }

  ghost predicate Closed(m: Model, probs: seq<seq<bool>>, bows: seq<seq<bool>>)
    requires Shaped(m, probs, bows)
  {
    forall o {:trigger probs[o]} :: 0 < o < |m.levels| ==> ClosedAt(m.levels[o], probs[o], probs[o - 1], bows[o - 1])
  }

  ghost predicate Within(a: seq<bool>, b: seq<bool>)
  {
    |a| == |b| && forall i :: 0 <= i < |a| && a[i] ==> b[i]
  }

  ghost predicate AllWithin(a: seq<seq<bool>>, b: seq<seq<bool>>)
  {
    |a| == |b| && forall o :: 0 <= o < |a| ==> Within(a[o], b[o])
  }

  /** What one order needs from the order below. */
  method UpdateMask(l: Level, probMask: seq<bool>, boProbMask: seq<bool>, boBowMask: seq<bool>)
    returns (boProbs: seq<bool>, boBows: seq<bool>, discs: seq<bool>)
    requires |probMask| == |l.words| == |l.hists| == |l.backoffs|
    requires forall i :: 0 <= i < |l.words| ==> l.backoffs[i] < |boProbMask| && l.hists[i] < |boBowMask|
    ensures Within(boProbMask, boProbs) && Within(boBowMask, boBows)
    ensures ClosedAt(l, probMask, boProbs, boBows)
    ensures forall p, b :: Within(boProbMask, p) && Within(boBowMask, b) && ClosedAt(l, probMask, p, b) ==>
              Within(boProbs, p) && Within(boBows, b)
    ensures DiscFollows(l, discs, boBows)
    ensures |boProbs| == |boProbMask| && forall j :: 0 <= j < |boProbs| ==>
              (boProbs[j] <==> boProbMask[j] || exists i :: 0 <= i < |probMask| && probMask[i] && l.backoffs[i] == j)
    ensures |boBows| == |boBowMask| && forall j :: 0 <= j < |boBows| ==>
              (boBows[j] <==> boBowMask[j] || exists i :: 0 <= i < |probMask| && probMask[i] && l.hists[i] == j)
    ensures |discs| == |l.words| && forall i :: 0 <= i < |l.words| ==> (discs[i] <==> boBows[l.hists[i]])
  {
    boProbs, boBows := boProbMask, boBowMask;
    for i := 0 to |probMask|
      invariant Within(boProbMask, boProbs) && Within(boBowMask, boBows)
      invariant forall k :: 0 <= k < i && probMask[k] ==> Requested(boProbs, l.backoffs[k]) && Requested(boBows, l.hists[k])
      invariant forall j :: 0 <= j < |boProbs| && boProbs[j] && !boProbMask[j] ==>
                  exists k :: 0 <= k < i && probMask[k] && l.backoffs[k] == j
      invariant forall j :: 0 <= j < |boBows| && boBows[j] && !boBowMask[j] ==>
                  exists k :: 0 <= k < i && probMask[k] && l.hists[k] == j
    {
      if probMask[i] {
        if !boProbs[l.backoffs[i]] {
          boProbs := boProbs[l.backoffs[i] := true];
        }
        if !boBows[l.hists[i]] {
          boBows := boBows[l.hists[i] := true];
        }
      }
    }
    discs := seq(|l.words|, i requires 0 <= i < |l.words| => Requested(boBows, l.hists[i]));
  }

  /** A closed request that contains the given one. */
  ghost predicate Suffices(m: Model, probMasks: seq<seq<bool>>, bowMasks: seq<seq<bool>>, p: seq<seq<bool>>, b: seq<seq<bool>>)
  {
    Shaped(m, p, b) && Closed(m, p, b) && AllWithin(probMasks, p) && AllWithin(bowMasks, b)
  }

  /** After the orders above o have been closed. */
  ghost predicate ClosedAbove(m: Model, probMasks: seq<seq<bool>>, bowMasks: seq<seq<bool>>, probs: seq<seq<bool>>,
                              bows: seq<seq<bool>>, discs: seq<seq<bool>>, o: nat)
  {
    && o < |m.levels| && Shaped(m, probs, bows) && |discs| == |m.levels|
    && AllWithin(probMasks, probs) && AllWithin(bowMasks, bows)
    && (forall q {:trigger probs[q]} :: o < q < |m.levels| ==> ClosedAt(m.levels[q], probs[q], probs[q - 1], bows[q - 1]))
    && (forall q {:trigger discs[q]} :: o < q < |m.levels| ==> DiscFollows(m.levels[q], discs[q], bows[q - 1]))
    && (forall p, b :: Suffices(m, probMasks, bowMasks, p, b) ==> AllWithin(probs, p) && AllWithin(bows, b))
  }

  lemma ClosedAboveStep(m: Model, probMasks: seq<seq<bool>>, bowMasks: seq<seq<bool>>, probs: seq<seq<bool>>,
                        bows: seq<seq<bool>>, discs: seq<seq<bool>>, o: nat, boProbs: seq<bool>, boBows: seq<bool>,
                        disc: seq<bool>)
    requires ClosedAbove(m, probMasks, bowMasks, probs, bows, discs, o) && 0 < o
    requires Within(probs[o - 1], boProbs) && Within(bows[o - 1], boBows)
    requires ClosedAt(m.levels[o], probs[o], boProbs, boBows) && DiscFollows(m.levels[o], disc, boBows)
    requires forall p, b :: Within(probs[o - 1], p) && Within(bows[o - 1], b) && ClosedAt(m.levels[o], probs[o], p, b) ==>
               Within(boProbs, p) && Within(boBows, b)
    ensures ClosedAbove(m, probMasks, bowMasks, probs[o - 1 := boProbs], bows[o - 1 := boBows], discs[o := disc], o - 1)
  {
    hide ClosedAt, DiscFollows, AllWithin, Within, Suffices, Shaped;
    StaysShaped(m, probs, bows, o, boProbs, boBows);
    WithinWider(probMasks, probs, o - 1, boProbs);
    WithinWider(bowMasks, bows, o - 1, boBows);
    forall p, b | Suffices(m, probMasks, bowMasks, p, b)
      ensures AllWithin(probs[o - 1 := boProbs], p) && AllWithin(bows[o - 1 := boBows], b)
    {
      SmallestStep(m, probMasks, bowMasks, probs, bows, o, p, b);
      StillWithin(probs, p, o - 1, boProbs);
      StillWithin(bows, b, o - 1, boBows);
    }
  }

  lemma StaysShaped(m: Model, probs: seq<seq<bool>>, bows: seq<seq<bool>>, o: nat, boProbs: seq<bool>, boBows: seq<bool>)
    requires Shaped(m, probs, bows) && 0 < o < |m.levels|
    requires Within(probs[o - 1], boProbs) && Within(bows[o - 1], boBows)
    ensures |probs| == |m.levels| == |bows| + 1
    ensures Shaped(m, probs[o - 1 := boProbs], bows[o - 1 := boBows])
  {
  }

  lemma WithinWider(a: seq<seq<bool>>, b: seq<seq<bool>>, q: nat, x: seq<bool>)
    requires AllWithin(a, b) && q < |b| && Within(b[q], x)
    ensures AllWithin(a, b[q := x])
  {
  }

  lemma StillWithin(a: seq<seq<bool>>, b: seq<seq<bool>>, q: nat, x: seq<bool>)
    requires AllWithin(a, b) && q < |a| && Within(x, b[q])
    ensures AllWithin(a[q := x], b)
  {
  }

  lemma SmallestStep(m: Model, probMasks: seq<seq<bool>>, bowMasks: seq<seq<bool>>, probs: seq<seq<bool>>,
                     bows: seq<seq<bool>>, o: nat, p: seq<seq<bool>>, b: seq<seq<bool>>)
    requires 0 < o < |m.levels| && Shaped(m, probs, bows) && Suffices(m, probMasks, bowMasks, p, b)
    requires AllWithin(probs, p) && AllWithin(bows, b)
    ensures |probs| == |p| == |m.levels| == |bows| + 1 && |b| == |bows|
    ensures Within(probs[o - 1], p[o - 1]) && Within(bows[o - 1], b[o - 1])
    ensures ClosedAt(m.levels[o], probs[o], p[o - 1], b[o - 1])
  {
    hide ClosedAt;
    assert ClosedAt(m.levels[o], p[o], p[o - 1], b[o - 1]);
    ClosedShrinks(m.levels[o], probs[o], p[o], p[o - 1], b[o - 1]);
  }

  lemma ClosedAboveStart(m: Model, probMasks: seq<seq<bool>>, bowMasks: seq<seq<bool>>)
    requires WellFormed(m) && Shaped(m, probMasks, bowMasks)
    ensures |m.levels| > 1
    ensures ClosedAbove(m, probMasks, bowMasks, probMasks, bowMasks, seq(|m.levels|, _ => []), |m.levels| - 1)
  {
  }

  lemma ClosedAboveAll(m: Model, probMasks: seq<seq<bool>>, bowMasks: seq<seq<bool>>, k: Masks)
    requires ClosedAbove(m, probMasks, bowMasks, k.probs, k.bows, k.discs, 0)
    ensures Suffices(m, probMasks, bowMasks, k.probs, k.bows) && DiscsFollow(m, k)
    ensures forall p, b :: Suffices(m, probMasks, bowMasks, p, b) ==> AllWithin(k.probs, p) && AllWithin(k.bows, b)
  {
    hide ClosedAt, DiscFollows;
  }

  /** Copies the requested masks and closes them, from the highest order down: the result is
      the smallest closed request that contains them. */
  method GetMask(m: Model, probMasks: seq<seq<bool>>, bowMasks: seq<seq<bool>>) returns (k: Masks)
    requires WellFormed(m) && Shaped(m, probMasks, bowMasks)
    ensures Suffices(m, probMasks, bowMasks, k.probs, k.bows) && DiscsFollow(m, k)
    ensures forall p, b :: Suffices(m, probMasks, bowMasks, p, b) ==> AllWithin(k.probs, p) && AllWithin(k.bows, b)
  {
    hide *;
    k := Masks(probMasks, bowMasks, seq(|m.levels|, _ => []));
    ClosedAboveStart(m, probMasks, bowMasks);
    var o := |m.levels| - 1;
    while o > 0
      invariant 0 <= o < |m.levels|
      invariant ClosedAbove(m, probMasks, bowMasks, k.probs, k.bows, k.discs, o)
    {
      MaskShapes(m, probMasks, bowMasks, k, o);
      var boProbs, boBows, disc := UpdateMask(m.levels[o], k.probs[o], k.probs[o - 1], k.bows[o - 1]);
      ClosedAboveStep(m, probMasks, bowMasks, k.probs, k.bows, k.discs, o, boProbs, boBows, disc);
      k := Masks(k.probs[o - 1 := boProbs], k.bows[o - 1 := boBows], k.discs[o := disc]);
      o := o - 1;
    }
    ClosedAboveAll(m, probMasks, bowMasks, k);
  }

  lemma MaskShapes(m: Model, probMasks: seq<seq<bool>>, bowMasks: seq<seq<bool>>, k: Masks, o: nat)
    requires WellFormed(m) && 0 < o && ClosedAbove(m, probMasks, bowMasks, k.probs, k.bows, k.discs, o)
    ensures o < |m.levels| == |k.probs| == |k.discs| == |k.bows| + 1
    ensures var l := m.levels[o];
            && |k.probs[o]| == |l.words| == |l.hists| == |l.backoffs|
            && (forall i :: 0 <= i < |l.words| ==> l.backoffs[i] < |k.probs[o - 1]| && l.hists[i] < |k.bows[o - 1]|)
  {
    hide ClosedAt, DiscFollows;
    LevelFacts(m, o);
  }

  /** Requesting less needs less. */
  lemma ClosedShrinks(l: Level, small: seq<bool>, large: seq<bool>, p: seq<bool>, b: seq<bool>)
    requires Within(small, large) && ClosedAt(l, large, p, b)
    ensures ClosedAt(l, small, p, b)
  {
  }

  ghost predicate DiscFollows(l: Level, discs: seq<bool>, boBows: seq<bool>)
  {
    |discs| == |l.words| && forall i :: 0 <= i < |l.words| && i < |l.hists| ==> discs[i] == Requested(boBows, l.hists[i])
  }

  ghost predicate DiscsFollow(m: Model, k: Masks)
  {
    && |k.discs| == |m.levels| && |k.bows| == |m.levels| - 1
    && forall o {:trigger k.discs[o]} :: 0 < o < |m.levels| ==> DiscFollows(m.levels[o], k.discs[o], k.bows[o - 1])
  }

  // ----- masked tables -----

  ghost predicate AgreesOn(mask: seq<bool>, a: seq<real>, b: seq<real>)
  {
    |mask| == |a| == |b| && forall i :: 0 <= i < |mask| && mask[i] ==> a[i] == b[i]
  }

  /** The tables agree with the full ones on everything requested of orders 1 to n. */
  ghost predicate AgreesTo(m: Model, k: Masks, n: nat, probs: seq<seq<real>>, bows: seq<seq<real>>,
                           fullProbs: seq<seq<real>>, fullBows: seq<seq<real>>)
    requires Shaped(m, k.probs, k.bows) && Tables(m, probs, bows) && Tables(m, fullProbs, fullBows) && n < |m.levels|
  {
    && probs[0] == fullProbs[0]
    && (forall o :: 0 < o <= n ==> AgreesOn(k.probs[o], probs[o], fullProbs[o]))
    && (forall o :: 0 <= o < n ==> AgreesOn(k.bows[o], bows[o], fullBows[o]))
  }

  // ----- the estimate of all orders -----

  /** What Initialize leaves for the orders 1 to n: effective counts and discount factors; and
      the features of their n-grams, with the exponential that weighs them. */
  datatype Setting = Setting(discOrder: nat, tuneParams: bool, features: seq<seq<seq<real>>>, exp: real -> real,
                             effs: seq<seq<nat>>, discs: seq<seq<Param>>)

  /** Number of discount parameters in front of the feature parameters of an order. */
  function DiscParams(st: Setting): nat
  {
    if st.tuneParams then st.discOrder else 0
  }

  /** Tuned discounts are in range. */
  predicate InRange(params: seq<real>, discOrder: nat)
    requires discOrder <= |params|
  {
    forall i :: 0 <= i < discOrder ==> 0.0 <= params[i] <= (i + 1) as real
  }

  /** No feature parameter is above 100; how far below zero they are is not tested. */
  predicate NoneLarge(params: seq<real>, from: nat)
  {
    forall i :: from <= i < |params| ==> params[i] <= 100.0
  }

  ghost predicate SettingFits(m: Model, st: Setting)
    requires WellFormed(m)
  {
    && st.discOrder > 0 && |st.features| == |st.effs| == |st.discs| == |m.levels|
    && (forall x :: st.exp(x) > 0.0)
    && forall o {:trigger st.effs[o]} :: 0 < o < |m.levels| ==>
         SettingFitsAt(m, o, st.discOrder, st.features[o], st.effs[o], st.discs[o])
  }

  ghost predicate SettingFitsAt(m: Model, o: nat, discOrder: nat, features: seq<seq<real>>, eff: seq<nat>, disc: seq<Param>)
    requires WellFormed(m) && 0 < o < |m.levels|
  {
    && |eff| == Size(m.levels[o]) == |m.levels[o].counts|
    && (forall f :: 0 <= f < |features| ==> |features[f]| == |eff|)
    && (o + 1 < |m.levels| ==> |m.levels[o + 1].counts| == |m.levels[o + 1].backoffs|)
    && (forall i :: 0 <= i < |eff| ==> eff[i] == EffCount(m, o, i))
    && |disc| == discOrder + 1 && disc[0] == Num(0.0)
    && (forall i :: 1 <= i <= discOrder ==> disc[i] == DiscountFor(eff, i))
  }

  /** The first n features of n-gram i, weighed; zero parameters are skipped. */
  function GramSum(features: seq<seq<real>>, params: seq<real>, i: nat, n: nat): real
    requires n <= |features| && n <= |params| && forall f :: 0 <= f < n ==> i < |features[f]|
  {
    if n == 0 then 0.0
    else GramSum(features, params, i, n - 1) + (if params[n - 1] == 0.0 then 0.0 else features[n - 1][i] * params[n - 1])
  }

  /** N-gram weights: one each without features, else the exponential of the weighed features. */
  function WeightsFor(features: seq<seq<real>>, params: seq<real>, exp: real -> real, size: nat): (w: seq<real>)
    requires |params| == |features| && forall f :: 0 <= f < |features| ==> |features[f]| == size
    ensures |w| == size && ((forall x :: exp(x) > 0.0) ==> forall i :: 0 <= i < size ==> w[i] > 0.0)
  {
    seq(size, i requires 0 <= i < size =>
      if |features| == 0 then 1.0 else exp(GramSum(features, params, i, |features|)))
  }

  ghost function DotTerm(features: seq<seq<real>>, params: seq<real>, i: nat): int -> real
  {
    f => if 0 <= f < |features| && f < |params| && i < |features[f]| then features[f][i] * params[f] else 0.0
  }

  /** Skipping zero parameters does not matter: the sum is the product of features and parameters. */
  lemma {:induction false} GramSumIs(features: seq<seq<real>>, params: seq<real>, i: nat, n: nat)
    requires n <= |features| && n <= |params| && forall f :: 0 <= f < n ==> i < |features[f]|
    ensures GramSum(features, params, i, n) == Sum(n, DotTerm(features, params, i))
  {
    if n > 0 {
      GramSumIs(features, params, i, n - 1);
      ZeroFactor(features[n - 1][i], params[n - 1]);
    }
  }

  lemma ZeroFactor(x: real, y: real)
    ensures y == 0.0 ==> x * y == 0.0
  {
  }

  /** N-gram weights: all one without features, else the exponential of that product. */
  lemma WeightsAre(features: seq<seq<real>>, params: seq<real>, exp: real -> real, size: nat, i: nat)
    requires |params| == |features| && (forall f :: 0 <= f < |features| ==> |features[f]| == size) && i < size
    ensures features == [] ==> WeightsFor(features, params, exp, size)[i] == 1.0
    ensures features != [] ==>
              WeightsFor(features, params, exp, size)[i] == exp(Sum(|features|, DotTerm(features, params, i)))
  {
    GramSumIs(features, params, i, |features|);
  }

  /** The parameters of order o are not refused. */
  ghost predicate Accepted(st: Setting, params: seq<seq<real>>, o: nat)
    requires o < |st.discs| == |params| == |st.features|
  {
    && |params[o]| == DiscParams(st) + |st.features[o]|
    && InRange(params[o], DiscParams(st)) && NoneLarge(params[o], DiscParams(st))
  }

  /** They are not refused, and the discounts they are used with are numbers. */
  ghost predicate Usable(st: Setting, params: seq<seq<real>>, o: nat)
    requires o < |st.discs| == |params| == |st.features|
  {
    Accepted(st, params, o) && (st.tuneParams || AllDefined(st.discs[o]))
  }

  ghost predicate FeaturesFit(st: Setting, o: nat)
    requires o < |st.effs| == |st.features|
  {
    forall f :: 0 <= f < |st.features[o]| ==> |st.features[o][f]| == |st.effs[o]|
  }

  /** The discounts an estimate uses, the parameters when they are tuned, else the fixed ones;
      and the weights from the feature parameters. */
  ghost function SmoothedAt(st: Setting, params: seq<seq<real>>, o: nat): Smoothed
    requires o < |st.discs| == |params| == |st.effs| == |st.features| && Usable(st, params, o) && FeaturesFit(st, o)
  {
    Smoothed(st.effs[o],
             if st.tuneParams then [0.0] + params[o][..st.discOrder] else Values(st.discs[o]),
             WeightsFor(st.features[o], params[o][DiscParams(st)..], st.exp, |st.effs[o]|))
  }

  /** Features of a fitting setting fit. */
  lemma SettingFeatures(m: Model, st: Setting, o: nat)
    requires WellFormed(m) && SettingFits(m, st) && 0 < o < |m.levels|
    ensures FeaturesFit(st, o)
  {
    assert SettingFitsAt(m, o, st.discOrder, st.features[o], st.effs[o], st.discs[o]);
  }

  lemma SmoothedProper(m: Model, st: Setting, params: seq<seq<real>>, o: nat)
    requires WellFormed(m) && SettingFits(m, st) && 0 < o < |m.levels| == |params| && Usable(st, params, o)
    ensures FeaturesFit(st, o)
    ensures Proper(m.levels[o], SmoothedAt(st, params, o))
  {
    hide WellFormed;
    LevelFacts(m, o);
    SettingFeatures(m, st, o);
    assert SettingFitsAt(m, o, st.discOrder, st.features[o], st.effs[o], st.discs[o]);
    DiscountsUsable(st.effs[o], st.discOrder, st.discs[o]);
  }

  /** The tables of order o hold its estimate from the order below. */
  ghost predicate OrderDone(m: Model, s: Smoothed, o: nat, probs: seq<seq<real>>, bows: seq<seq<real>>)
    requires WellFormed(m) && Tables(m, probs, bows) && 0 < o < |m.levels| && Proper(m.levels[o], s)
  {
    assert Sits(m.levels[o], m.levels[o - 1], m.vocab);
    LevelEstimated(m.levels[o], s, Open(m, o), probs[o - 1], probs[o], bows[o - 1])
  }

  /** All orders 1 to n are done. */
  ghost predicate DoneTo(m: Model, st: Setting, params: seq<seq<real>>, n: nat, probs: seq<seq<real>>, bows: seq<seq<real>>)
    requires WellFormed(m) && SettingFits(m, st) && |params| == |m.levels| && Tables(m, probs, bows) && n < |m.levels|
  {
    forall o {:trigger probs[o]} :: 0 < o <= n ==> Usable(st, params, o) && DoneAt(m, st, params, o, probs, bows)
  }

  ghost predicate DoneAt(m: Model, st: Setting, params: seq<seq<real>>, o: nat, probs: seq<seq<real>>, bows: seq<seq<real>>)
    requires WellFormed(m) && SettingFits(m, st) && |params| == |m.levels| && Tables(m, probs, bows) && 0 < o < |m.levels|
    requires Usable(st, params, o)
  {
    SmoothedProper(m, st, params, o);
    OrderDone(m, SmoothedAt(st, params, o), o, probs, bows)
  }

  /** How an estimate ends: with all orders done, with parameters refused, or with discount
      factors that are not numbers. The code goes on with those, and from that order on its
      tables are not described. */
  datatype Outcome = Finished | Refused | NotNumbers

  /** The discounts and weights of one order for one estimate. */
  method DiscountsFor(st: Setting, params: seq<seq<real>>, o: nat) returns (r: Outcome, disc: seq<real>, weights: seq<real>)
    requires 0 < o < |st.discs| == |params| == |st.effs| == |st.features| && FeaturesFit(st, o)
    requires |params[o]| == DiscParams(st) + |st.features[o]|
    ensures r.Refused? <==> !Accepted(st, params, o)
    ensures r.Refused? <==>
              || (st.tuneParams && exists i :: 0 <= i < st.discOrder && !(0.0 <= params[o][i] <= (i + 1) as real))
              || (exists i :: (if st.tuneParams then st.discOrder else 0) <= i < |params[o]| && params[o][i] > 100.0)
    ensures r.Finished? <==> Usable(st, params, o)
    ensures r.Finished? ==> Smoothed(st.effs[o], disc, weights) == SmoothedAt(st, params, o)
  {
    var numDisc := DiscParams(st);
    for i := 0 to numDisc
      invariant forall j :: 0 <= j < i ==> 0.0 <= params[o][j] <= (j + 1) as real
    {
      if params[o][i] < 0.0 || params[o][i] > (i + 1) as real {
        return Refused, [], [];
      }
    }
    for i := numDisc to |params[o]|
      invariant forall j :: numDisc <= j < i ==> params[o][j] <= 100.0
    {
      if params[o][i] > 100.0 {
        return Refused, [], [];
      }
    }
    if st.tuneParams {
      disc := [0.0] + params[o][..st.discOrder];
    } else {
      var defined := FactorsDefined(st.discs[o]);
      if !defined {
        return NotNumbers, [], [];
      }
      disc := seq(|st.discs[o]|, i requires 0 <= i < |st.discs[o]| => st.discs[o][i].v);
      assert disc == Values(st.discs[o]);
    }
    weights := ComputeWeights(st.features[o], params[o][numDisc..], st.exp, |st.effs[o]|);
    r := Finished;
  }

  method FactorsDefined(disc: seq<Param>) returns (defined: bool)
    ensures defined <==> AllDefined(disc)
  {
    for i := 0 to |disc|
      invariant forall j :: 0 <= j < i ==> disc[j].Num?
    {
      if disc[i].NaN? {
        return false;
      }
    }
    defined := true;
  }

  /** Sums the weighed features, feature by feature, and exponentiates. */
  method ComputeWeights(features: seq<seq<real>>, params: seq<real>, exp: real -> real, size: nat) returns (weights: seq<real>)
    requires |params| == |features| && forall f :: 0 <= f < |features| ==> |features[f]| == size
    ensures weights == WeightsFor(features, params, exp, size)
  {
    if |features| == 0 {
      return seq(size, _ => 1.0);
    }
    var sums := seq(size, _ => 0.0);
    for f := 0 to |features|
      invariant |sums| == size && forall i :: 0 <= i < size ==> sums[i] == GramSum(features, params, i, f)
    {
      if params[f] != 0.0 {
        sums := seq(size, i requires 0 <= i < size => sums[i] + features[f][i] * params[f]);
      }
    }
    weights := seq(size, i requires 0 <= i < size => exp(sums[i]));
  }

  /** One order of the full estimate, in buffers that hold whatever they held before. */
  method EstimateOrder(m: Model, s: Smoothed, probs: seq<seq<real>>, bows: seq<seq<real>>, o: nat)
    returns (p: seq<real>, b: seq<real>)
    requires WellFormed(m) && Tables(m, probs, bows) && 0 < o < |m.levels| && Proper(m.levels[o], s)
    ensures |p| == |probs[o]| && |b| == |bows[o - 1]|
    ensures Sits(m.levels[o], m.levels[o - 1], m.vocab)
    ensures LevelEstimated(m.levels[o], s, Open(m, o), probs[o - 1], p, b)
  {
    hide WellFormed, LevelEstimated, Proper, InvOf;
    LevelFacts(m, o);
    var inv := ComputeInvHistCounts(m.levels[o], s, Size(m.levels[o - 1]));
    var probBuffer := new real[|probs[o]|](i requires 0 <= i < |probs[o]| => probs[o][i]);
    var bowBuffer := new real[|bows[o - 1]|](h requires 0 <= h < |bows[o - 1]| => bows[o - 1][h]);
    EstimateLevel(m.levels[o], s, Open(m, o), inv, probs[o - 1], probBuffer, bowBuffer);
    p, b := probBuffer[..], bowBuffer[..];
  }

  /** One order of the masked estimate, against any full estimate that agrees below. */
  method EstimateOrderMasked(m: Model, s: Smoothed, k: Masks, probs: seq<seq<real>>, bows: seq<seq<real>>, o: nat,
                             ghost fullProbs: seq<seq<real>>, ghost fullBows: seq<seq<real>>)
    returns (p: seq<real>, b: seq<real>)
    requires WellFormed(m) && Tables(m, probs, bows) && 0 < o < |m.levels| && Proper(m.levels[o], s)
    requires Shaped(m, k.probs, k.bows) && Closed(m, k.probs, k.bows) && DiscsFollow(m, k)
    requires Tables(m, fullProbs, fullBows) && OrderDone(m, s, o, fullProbs, fullBows)
    requires AgreesTo(m, k, o - 1, probs, bows, fullProbs, fullBows)
    ensures AgreesOn(k.probs[o], p, fullProbs[o]) && AgreesOn(k.bows[o - 1], b, fullBows[o - 1])
  {
    hide WellFormed, LevelEstimated, Proper, InvOf, Closed, DiscsFollow, AgreesTo, ProbOf, BowOf, OrderDone;
    LevelFacts(m, o);
    MaskReady(m, k, o);
    var inv := ComputeInvHistCounts(m.levels[o], s, Size(m.levels[o - 1]));
    var probBuffer := new real[|probs[o]|](i requires 0 <= i < |probs[o]| => probs[o][i]);
    var bowBuffer := new real[|bows[o - 1]|](h requires 0 <= h < |bows[o - 1]| => bows[o - 1][h]);
    EstimateMasked(m.levels[o], s, Open(m, o), inv, probs[o - 1], k.probs[o], k.bows[o - 1], k.discs[o],
                   probBuffer, bowBuffer);
    p, b := probBuffer[..], bowBuffer[..];
    MaskedAgrees(m, s, k, probs, bows, o, fullProbs, fullBows, p, b);
  }

  lemma MaskReady(m: Model, k: Masks, o: nat)
    requires Shaped(m, k.probs, k.bows) && Closed(m, k.probs, k.bows) && DiscsFollow(m, k) && 0 < o < |m.levels|
    requires Sits(m.levels[o], m.levels[o - 1], m.vocab)
    ensures |k.discs| == |m.levels|
    ensures var l := m.levels[o];
            && |k.probs[o]| == |k.discs[o]| == |l.words| && |k.bows[o - 1]| == Size(m.levels[o - 1])
            && (forall i :: 0 <= i < |l.words| && k.probs[o][i] ==> k.bows[o - 1][l.hists[i]])
            && (forall i :: 0 <= i < |l.words| && k.probs[o][i] ==> k.probs[o - 1][l.backoffs[i]])
            && (forall i :: 0 <= i < |l.words| ==> k.discs[o][i] == k.bows[o - 1][l.hists[i]])
  {
    assert ClosedAt(m.levels[o], k.probs[o], k.probs[o - 1], k.bows[o - 1]);
    assert DiscFollows(m.levels[o], k.discs[o], k.bows[o - 1]);
  }

  lemma MaskedAgrees(m: Model, s: Smoothed, k: Masks, probs: seq<seq<real>>, bows: seq<seq<real>>, o: nat,
                     fullProbs: seq<seq<real>>, fullBows: seq<seq<real>>, p: seq<real>, b: seq<real>)
    requires WellFormed(m) && Tables(m, probs, bows) && 0 < o < |m.levels|
    requires Shaped(m, k.probs, k.bows) && Closed(m, k.probs, k.bows) && DiscsFollow(m, k)
    requires Sits(m.levels[o], m.levels[o - 1], m.vocab) && Proper(m.levels[o], s)
    requires Tables(m, fullProbs, fullBows) && OrderDone(m, s, o, fullProbs, fullBows)
    requires AgreesTo(m, k, o - 1, probs, bows, fullProbs, fullBows)
    requires |p| == |probs[o]| && |b| == |bows[o - 1]|
    requires forall i :: 0 <= i < |p| && k.probs[o][i] ==>
               p[i] == ProbOf(m.levels[o], s, Open(m, o), i, probs[o - 1][m.levels[o].backoffs[i]])
    requires forall h :: 0 <= h < |b| && k.bows[o - 1][h] ==> b[h] == BowOf(m.levels[o], s, h)
    ensures AgreesOn(k.probs[o], p, fullProbs[o]) && AgreesOn(k.bows[o - 1], b, fullBows[o - 1])
  {
    hide WellFormed, Proper, ProbOf, BowOf, Closed, DiscsFollow, Open;
    MaskReady(m, k, o);
    forall i | 0 <= i < |p| && k.probs[o][i]
      ensures probs[o - 1][m.levels[o].backoffs[i]] == fullProbs[o - 1][m.levels[o].backoffs[i]]
    {
      if o > 1 {
        assert AgreesOn(k.probs[o - 1], probs[o - 1], fullProbs[o - 1]);
      }
    }
  }

  /** The orders 1 to n have usable discounts and order n + 1, if any, has not. */
  ghost predicate StopsAt(m: Model, st: Setting, params: seq<seq<real>>, n: nat)
    requires |st.discs| == |params| == |st.features| == |m.levels|
  {
    && n < |m.levels|
    && (forall o :: 0 < o <= n ==> Usable(st, params, o))
    && (n + 1 < |m.levels| ==> !Usable(st, params, n + 1))
  }

  /** The parameters have the right shape. */
  ghost predicate ParamsFit(m: Model, st: Setting, params: seq<seq<real>>)
    requires |st.features| == |m.levels|
  {
    && |params| == |m.levels|
    && forall o {:trigger params[o]} :: 0 < o < |m.levels| ==> |params[o]| == DiscParams(st) + |st.features[o]|
  }

  /** How an estimate ends that does the orders 1 to n. */
  ghost predicate EndsAs(m: Model, st: Setting, params: seq<seq<real>>, n: nat, r: Outcome)
    requires |st.discs| == |params| == |st.features| == |m.levels| && n < |m.levels|
  {
    && (r.Finished? <==> n + 1 == |m.levels|)
    && (r.Refused? <==> n + 1 < |m.levels| && !Accepted(st, params, n + 1))
  }

  /** The tables of the orders above n. */
  ghost predicate Untouched(m: Model, n: nat, probs: seq<seq<real>>, bows: seq<seq<real>>, probs0: seq<seq<real>>, bows0: seq<seq<real>>)
    requires Tables(m, probs, bows) && Tables(m, probs0, bows0)
  {
    forall o {:trigger probs[o]} :: n < o < |m.levels| ==> probs[o] == probs0[o] && bows[o - 1] == bows0[o - 1]
  }

  lemma StartUntouched(m: Model, probs: seq<seq<real>>, bows: seq<seq<real>>)
    requires Tables(m, probs, bows)
    ensures Untouched(m, 0, probs, bows, probs, bows)
  {
  }

  lemma UntouchedStep(m: Model, o: nat, probs: seq<seq<real>>, bows: seq<seq<real>>, probs0: seq<seq<real>>,
                      bows0: seq<seq<real>>, p: seq<real>, b: seq<real>)
    requires Tables(m, probs, bows) && Tables(m, probs0, bows0) && 0 < o < |m.levels|
    requires Tables(m, probs[o := p], bows[o - 1 := b]) && Untouched(m, o - 1, probs, bows, probs0, bows0)
    ensures Untouched(m, o, probs[o := p], bows[o - 1 := b], probs0, bows0)
  {
    var probs1, bows1 := probs[o := p], bows[o - 1 := b];
    forall q {:trigger probs1[q]} | o < q < |m.levels|
      ensures probs1[q] == probs0[q] && bows1[q - 1] == bows0[q - 1]
    {
      assert probs1[q] == probs[q] && bows1[q - 1] == bows[q - 1];
    }
  }

  /** All orders, each from the one below. Stops at the first order whose parameters are refused
      and leaves the tables from there on as they were. */
  method EstimateAll(m: Model, st: Setting, params: seq<seq<real>>, probs0: seq<seq<real>>, bows0: seq<seq<real>>)
    returns (r: Outcome, probs: seq<seq<real>>, bows: seq<seq<real>>, ghost done: nat)
    requires WellFormed(m) && SettingFits(m, st) && ParamsFit(m, st, params) && Tables(m, probs0, bows0)
    ensures Tables(m, probs, bows) && probs[0] == probs0[0]
    ensures StopsAt(m, st, params, done) && EndsAs(m, st, params, done, r)
    ensures DoneTo(m, st, params, done, probs, bows) && Untouched(m, done, probs, bows, probs0, bows0)
  {
    hide WellFormed, AllDefined, Accepted, Usable, DoneAt, SettingFitsAt, FeaturesFit, Untouched;
    hide LevelEstimated, Proper, SmoothedAt, Open;
    StartUntouched(m, probs0, bows0);
    LevelCount(m);
    probs, bows, done := probs0, bows0, 0;
    var o := 1;
    while o < |m.levels|
      invariant 1 <= o <= |m.levels| && done == o - 1 && Tables(m, probs, bows) && probs[0] == probs0[0]
      invariant DoneTo(m, st, params, done, probs, bows) && Untouched(m, done, probs, bows, probs0, bows0)
      invariant forall q :: 0 < q < o ==> Usable(st, params, q)
    {
      SettingFeatures(m, st, o);
      assert |params[o]| == DiscParams(st) + |st.features[o]|;
      var disc, weights;
      r, disc, weights := DiscountsFor(st, params, o);
      if r != Finished {
        return;
      }
      SmoothedProper(m, st, params, o);
      var p, b := EstimateOrder(m, Smoothed(st.effs[o], disc, weights), probs, bows, o);
      DoneStep(m, st, params, o, probs, bows, p, b);
      UntouchedStep(m, o, probs, bows, probs0, bows0, p, b);
      probs, bows, done := probs[o := p], bows[o - 1 := b], o;
      o := o + 1;
    }
    r := Finished;
  }

  lemma LevelCount(m: Model)
    requires WellFormed(m)
    ensures |m.levels| > 1
  {
  }

  lemma DoneStep(m: Model, st: Setting, params: seq<seq<real>>, o: nat, probs: seq<seq<real>>, bows: seq<seq<real>>,
                 p: seq<real>, b: seq<real>)
    requires WellFormed(m) && SettingFits(m, st) && |params| == |m.levels| && Tables(m, probs, bows) && 0 < o < |m.levels|
    requires DoneTo(m, st, params, o - 1, probs, bows) && Usable(st, params, o) && FeaturesFit(st, o)
    requires |p| == |probs[o]| && |b| == |bows[o - 1]| && Proper(m.levels[o], SmoothedAt(st, params, o))
    requires Sits(m.levels[o], m.levels[o - 1], m.vocab)
    requires LevelEstimated(m.levels[o], SmoothedAt(st, params, o), Open(m, o), probs[o - 1], p, b)
    ensures Tables(m, probs[o := p], bows[o - 1 := b])
    ensures DoneTo(m, st, params, o, probs[o := p], bows[o - 1 := b])
  {
    hide WellFormed, LevelEstimated, Proper, Usable, SettingFitsAt, Open, SmoothedAt;
    var probs1, bows1 := probs[o := p], bows[o - 1 := b];
    forall q | 0 < q <= o
      ensures Usable(st, params, q) && DoneAt(m, st, params, q, probs1, bows1)
    {
      if q < o {
        assert Usable(st, params, q) && DoneAt(m, st, params, q, probs, bows) by {
          assert probs[q] == probs[q];
        }
        assert probs1[q - 1] == probs[q - 1] && probs1[q] == probs[q] && bows1[q - 1] == bows[q - 1];
      }
    }
  }

  /** The masked estimate refines the full one: it stops at the same order, and every
      requested probability and backoff weight is the one of any full estimate. */
  method EstimateAllMasked(m: Model, st: Setting, params: seq<seq<real>>, k: Masks, probs0: seq<seq<real>>,
                           bows0: seq<seq<real>>, ghost fullProbs: seq<seq<real>>, ghost fullBows: seq<seq<real>>,
                           ghost full: nat)
    returns (r: Outcome, probs: seq<seq<real>>, bows: seq<seq<real>>)
    requires WellFormed(m) && SettingFits(m, st) && ParamsFit(m, st, params) && Tables(m, probs0, bows0)
    requires Shaped(m, k.probs, k.bows) && Closed(m, k.probs, k.bows) && DiscsFollow(m, k)
    requires Tables(m, fullProbs, fullBows) && fullProbs[0] == probs0[0]
    requires StopsAt(m, st, params, full) && DoneTo(m, st, params, full, fullProbs, fullBows)
    ensures Tables(m, probs, bows) && probs[0] == probs0[0]
    ensures EndsAs(m, st, params, full, r)
    ensures AgreesTo(m, k, full, probs, bows, fullProbs, fullBows) && Untouched(m, full, probs, bows, probs0, bows0)
  {
    hide WellFormed, AllDefined, Accepted, Usable, FeaturesFit, DoneAt, SettingFitsAt, Closed, DiscsFollow, AgreesOn, Untouched;
    hide LevelEstimated, Proper, SmoothedAt, Open;
    StartUntouched(m, probs0, bows0);
    LevelCount(m);
    probs, bows := probs0, bows0;
    var o := 1;
    while o < |m.levels|
      invariant 1 <= o <= full + 1 && Tables(m, probs, bows) && probs[0] == probs0[0]
      invariant AgreesTo(m, k, o - 1, probs, bows, fullProbs, fullBows)
      invariant Untouched(m, o - 1, probs, bows, probs0, bows0)
    {
      SettingFeatures(m, st, o);
      assert |params[o]| == DiscParams(st) + |st.features[o]|;
      var disc, weights;
      r, disc, weights := DiscountsFor(st, params, o);
      if r != Finished {
        return;
      }
      SmoothedProper(m, st, params, o);
      FullOrder(m, st, params, full, fullProbs, fullBows, o);
      var p, b := EstimateOrderMasked(m, Smoothed(st.effs[o], disc, weights), k, probs, bows, o, fullProbs, fullBows);
      MaskedStep(m, k, o, probs, bows, fullProbs, fullBows, p, b);
      UntouchedStep(m, o, probs, bows, probs0, bows0, p, b);
      probs, bows := probs[o := p], bows[o - 1 := b];
      o := o + 1;
    }
    r := Finished;
  }

  lemma FullOrder(m: Model, st: Setting, params: seq<seq<real>>, full: nat, fullProbs: seq<seq<real>>,
                  fullBows: seq<seq<real>>, o: nat)
    requires WellFormed(m) && SettingFits(m, st) && |params| == |m.levels| && Tables(m, fullProbs, fullBows)
    requires StopsAt(m, st, params, full) && DoneTo(m, st, params, full, fullProbs, fullBows)
    requires 0 < o < |m.levels| && o <= full + 1 && Usable(st, params, o) && FeaturesFit(st, o)
    requires Proper(m.levels[o], SmoothedAt(st, params, o))
    ensures o <= full && OrderDone(m, SmoothedAt(st, params, o), o, fullProbs, fullBows)
  {
    hide WellFormed, Usable, OrderDone, SettingFits, Proper, SmoothedAt;
    assert o <= full;
    assert fullProbs[o] == fullProbs[o];
  }

  lemma MaskedStep(m: Model, k: Masks, o: nat, probs: seq<seq<real>>, bows: seq<seq<real>>, fullProbs: seq<seq<real>>,
                   fullBows: seq<seq<real>>, p: seq<real>, b: seq<real>)
    requires Shaped(m, k.probs, k.bows) && Tables(m, probs, bows) && Tables(m, fullProbs, fullBows) && 0 < o < |m.levels|
    requires AgreesTo(m, k, o - 1, probs, bows, fullProbs, fullBows)
    requires AgreesOn(k.probs[o], p, fullProbs[o]) && AgreesOn(k.bows[o - 1], b, fullBows[o - 1])
    ensures Tables(m, probs[o := p], bows[o - 1 := b])
    ensures AgreesTo(m, k, o, probs[o := p], bows[o - 1 := b], fullProbs, fullBows)
  {
    assert |p| == |probs[o]| && |b| == |bows[o - 1]|;
    hide AgreesOn;
  }
}
