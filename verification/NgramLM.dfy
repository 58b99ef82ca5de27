/** The language model object over one n-gram model. */
module LanguageModel {
  import opened Backoff
  import opened KneserNey
  import opened KneserNeyModel
  import opened KneserNeySmoothing
  import opened MaskedEstimation

  /** The smoothing data one finished estimate used. */
  ghost function AllSmoothed(m: Model, st: Setting, params: seq<seq<real>>): seq<Smoothed>
    requires |params| == |m.levels| == |st.discs| == |st.effs| == |st.features|
    requires forall o :: 0 < o < |m.levels| ==> Usable(st, params, o) && FeaturesFit(st, o)
  {
    seq(|m.levels|, o requires 0 <= o < |m.levels| =>
      if o == 0 then Smoothed([], [], []) else SmoothedAt(st, params, o))
  }

  lemma AllSmoothable(m: Model, st: Setting, params: seq<seq<real>>)
    requires WellFormed(m) && SettingFits(m, st) && SuffixClosed(m) && |params| == |m.levels|
    requires forall o :: 0 < o < |m.levels| ==> Usable(st, params, o)
    ensures forall o :: 0 < o < |m.levels| ==> FeaturesFit(st, o)
    ensures Smoothable(m, AllSmoothed(m, st, params))
  {
    hide WellFormed, SuffixClosed, Usable, Proper, EffCount, FeaturesFit, WeightsFor, DiscountFor;
    forall o | 0 < o < |m.levels|
      ensures FeaturesFit(st, o)
    {
      SettingFeatures(m, st, o);
    }
    var s := AllSmoothed(m, st, params);
    LevelCount(m);
    forall o | 0 < o < |m.levels|
      ensures Proper(m.levels[o], s[o])
    {
      SmoothedProper(m, st, params, o);
    }
    assert SettingFitsAt(m, 1, st.discOrder, st.features[1], st.effs[1], st.discs[1]);
    forall i | 0 <= i < |s[1].eff| && i < |m.levels[1].counts|
      ensures s[1].eff[i] > 0 <==> m.levels[1].counts[i] > 0
    {
      EffCountPositive(m, 1, i);
    }
  }

  /** What a finished estimate leaves satisfies the recursive description of the estimates. */
  lemma DoneIsEstimated(m: Model, st: Setting, params: seq<seq<real>>, probs: seq<seq<real>>, bows: seq<seq<real>>, p0: real)
    requires WellFormed(m) && SettingFits(m, st) && SuffixClosed(m) && |params| == |m.levels| && Tables(m, probs, bows)
    requires forall o :: 0 < o < |m.levels| ==> Usable(st, params, o)
    requires DoneTo(m, st, params, |m.levels| - 1, probs, bows) && probs[0] == [p0]
    ensures |st.discs| == |st.effs| == |st.features| == |m.levels|
    ensures forall o :: 0 < o < |m.levels| ==> FeaturesFit(st, o)
    ensures Smoothable(m, AllSmoothed(m, st, params))
    ensures Estimated(m, AllSmoothed(m, st, params), p0, probs, bows)
  {
    hide WellFormed, SuffixClosed, Usable, SettingFitsAt, Smoothable, LevelEstimated, SmoothedAt, Proper;
    AllSmoothable(m, st, params);
    var s := AllSmoothed(m, st, params);
    forall o | 0 < o < |m.levels|
      ensures EstimatedAt(m, s, probs, bows, o)
    {
      assert probs[o] == probs[o];
      assert DoneAt(m, st, params, o, probs, bows);
    }
  }

  /** Estimation normalises: after every history of every order, the backoff probabilities of
      the vocabulary are not negative and add up to one. */
  lemma EstimateNormalises(m: Model, st: Setting, params: seq<seq<real>>, probs: seq<seq<real>>, bows: seq<seq<real>>,
                           p0: real, o: nat, h: nat)
    requires WellFormed(m) && SettingFits(m, st) && SuffixClosed(m) && |params| == |m.levels| && Tables(m, probs, bows)
    requires forall q :: 0 < q < |m.levels| ==> Usable(st, params, q)
    requires DoneTo(m, st, params, |m.levels| - 1, probs, bows)
    requires Support(m) > 0 && p0 == 1.0 / Support(m) as real && probs[0] == [p0]
    requires o < |m.levels| && (o > 0 ==> h < Size(m.levels[o - 1]))
    ensures |m.levels[1].hists| == |m.levels[1].words| == |m.levels[1].counts|
    ensures IsDistribution(m.vocab, After(m, Base(m, p0), probs, bows, o, h))
  {
    hide *;
    DoneIsEstimated(m, st, params, probs, bows, p0);
    KneserNeyNormalises(m, AllSmoothed(m, st, params), p0, probs, bows, o, h);
  }

  class NgramLM {
    const m: Model
    var setting: Setting
    var probVectors: seq<seq<real>>
    var bowVectors: seq<seq<real>>

    ghost predicate Valid()
      reads this
    {
      && WellFormed(m) && SettingFits(m, setting) && Tables(m, probVectors, bowVectors)
      && (Support(m) > 0 ==> probVectors[0] == [1.0 / Support(m) as real])
    }

    /** Initialises the smoothing of every order and the order-0 probability, which is infinite
        when no word occurs and then not described. */
    constructor (m: Model, discOrder: nat, tuneParams: bool, features: seq<seq<seq<real>>>, exp: real -> real)
      requires WellFormed(m) && discOrder > 0 && GramFeatures(m, features) && forall x :: exp(x) > 0.0
      ensures Valid() && this.m == m
      ensures setting.discOrder == discOrder && setting.tuneParams == tuneParams
      ensures setting.features == features && setting.exp == exp
    {
      var st := InitializeAll(m, discOrder, tuneParams, features, exp);
      var probs, bows := Allocate(m);
      this.m, setting := m, st;
      probVectors := if Support(m) > 0 then probs[0 := [1.0 / Support(m) as real]] else probs;
      bowVectors := bows;
    }

    /** Estimates every order, up to one whose parameters are refused. */
    method Estimate(params: seq<seq<real>>) returns (r: Outcome, ghost done: nat)
      requires Valid() && ParamsFit(m, setting, params)
      modifies this`probVectors, this`bowVectors
      ensures Valid() && StopsAt(m, setting, params, done) && EndsAs(m, setting, params, done, r)
      ensures DoneTo(m, setting, params, done, probVectors, bowVectors)
      ensures Untouched(m, done, probVectors, bowVectors, old(probVectors), old(bowVectors))
    {
      hide WellFormed, Support, SettingFits, ParamsFit, Tables, StopsAt, DoneTo, EndsAs, Untouched;
      probVectors, bowVectors, r, done := Run(m, setting, params, probVectors, bowVectors);
    }

    /** The closed request for the given one. */
    method Mask(probMasks: seq<seq<bool>>, bowMasks: seq<seq<bool>>) returns (k: Masks)
      requires Valid() && Shaped(m, probMasks, bowMasks)
      ensures Suffices(m, probMasks, bowMasks, k.probs, k.bows) && DiscsFollow(m, k)
      ensures forall p, b :: Suffices(m, probMasks, bowMasks, p, b) ==> AllWithin(k.probs, p) && AllWithin(k.bows, b)
    {
      hide Suffices, DiscsFollow, AllWithin, Shaped;
      k := GetMask(m, probMasks, bowMasks);
    }

    /** Estimates what the mask requests, whatever the tables held before. */
    method EstimateMasked(params: seq<seq<real>>, k: Masks, ghost fullProbs: seq<seq<real>>, ghost fullBows: seq<seq<real>>,
                          ghost full: nat) returns (r: Outcome)
      requires Valid() && ParamsFit(m, setting, params)
      requires Shaped(m, k.probs, k.bows) && Closed(m, k.probs, k.bows) && DiscsFollow(m, k)
      requires Tables(m, fullProbs, fullBows) && fullProbs[0] == probVectors[0]
      requires StopsAt(m, setting, params, full) && DoneTo(m, setting, params, full, fullProbs, fullBows)
      modifies this`probVectors, this`bowVectors
      ensures Valid() && EndsAs(m, setting, params, full, r)
      ensures AgreesTo(m, k, full, probVectors, bowVectors, fullProbs, fullBows)
      ensures Untouched(m, full, probVectors, bowVectors, old(probVectors), old(bowVectors))
    {
      hide WellFormed, Support, SettingFits, ParamsFit, StopsAt, DoneTo, AgreesTo, Shaped, Closed, DiscsFollow, EndsAs, Untouched;
      r, probVectors, bowVectors := EstimateAllMasked(m, setting, params, k, probVectors, bowVectors, fullProbs, fullBows, full);
    }
  }

  /** Features of every n-gram, by order. */
  ghost predicate GramFeatures(m: Model, features: seq<seq<seq<real>>>)
  {
    && |features| == |m.levels|
    && forall o, f :: 0 < o < |m.levels| && 0 <= f < |features[o]| ==> |features[o][f]| == Size(m.levels[o])
  }

  method Run(m: Model, st: Setting, params: seq<seq<real>>, probs0: seq<seq<real>>, bows0: seq<seq<real>>)
    returns (probs: seq<seq<real>>, bows: seq<seq<real>>, r: Outcome, ghost done: nat)
    requires WellFormed(m) && SettingFits(m, st) && ParamsFit(m, st, params) && Tables(m, probs0, bows0)
    ensures Tables(m, probs, bows) && probs[0] == probs0[0]
    ensures StopsAt(m, st, params, done) && EndsAs(m, st, params, done, r)
    ensures DoneTo(m, st, params, done, probs, bows) && Untouched(m, done, probs, bows, probs0, bows0)
  {
    hide *;
    r, probs, bows, done := EstimateAll(m, st, params, probs0, bows0);
  }

  /** Effective counts and discount factors of every order. */
  method InitializeAll(m: Model, discOrder: nat, tuneParams: bool, features: seq<seq<seq<real>>>, exp: real -> real)
    returns (st: Setting)
    requires WellFormed(m) && discOrder > 0 && GramFeatures(m, features) && forall x :: exp(x) > 0.0
    ensures SettingFits(m, st)
    ensures st.discOrder == discOrder && st.tuneParams == tuneParams && st.features == features && st.exp == exp
  {
    hide WellFormed, EffCount, DiscountFor;
    var effs: seq<seq<nat>>, discs: seq<seq<Param>> := [[]], [[]];
    LevelCount(m);
    for o := 1 to |m.levels|
      invariant |effs| == |discs| == o
      invariant forall q {:trigger effs[q]} :: 0 < q < o ==> SettingFitsAt(m, q, discOrder, features[q], effs[q], discs[q])
    {
      var eff := ComputeEffCounts(m, o);
      var disc := EstimateDiscounts(eff, discOrder);
      effs, discs := effs + [eff], discs + [disc];
    }
    st := Setting(discOrder, tuneParams, features, exp, effs, discs);
  }

  /** Tables of the right sizes. */
  method Allocate(m: Model) returns (probs: seq<seq<real>>, bows: seq<seq<real>>)
    requires WellFormed(m)
    ensures Tables(m, probs, bows)
  {
    LevelCount(m);
    probs := seq(|m.levels|, o requires 0 <= o < |m.levels| => seq(Size(m.levels[o]), _ => 0.0));
    bows := seq(|m.levels| - 1, o requires 0 <= o < |m.levels| - 1 => seq(Size(m.levels[o]), _ => 0.0));
  }
}
