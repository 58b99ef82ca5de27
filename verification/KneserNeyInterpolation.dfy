/** Interpolating models that are themselves estimated: Kneser-Ney models over the n-grams of the
    interpolated one, and models that were read in and stay as they are. */
module KneserNeyInterpolation {
  import opened Distinctness
  import opened Sorting
  import opened Sums
  import opened Backoff
  import K = KneserNey
  import opened KneserNeyModel
  import S = KneserNeySmoothing
  import E = MaskedEstimation
  import L = LanguageModel
  import opened Interpolation
  import opened InterpolatedNgramLM

  /** A component before it is estimated: its tables hold whatever they held before. */
  datatype LM =
    | Smoothing(m: Model, st: E.Setting, params: seq<seq<real>>, probs: seq<seq<real>>, bows: seq<seq<real>>,
                features: seq<seq<seq<real>>>)
    | Fixed(probs: seq<seq<real>>, features: seq<seq<seq<real>>>)

  /** The same n-grams with their own counts. */
  ghost predicate SharesGrams(m: Model, own: Model)
  {
    && own.vocab == m.vocab && |own.levels| == |m.levels|
    && forall o :: 0 <= o < |m.levels| ==> Size(own.levels[o]) == Size(m.levels[o])
  }

  ghost predicate LMFits(m: Model, lm: LM)
  {
    && (forall f :: 0 <= f < |lm.features| ==> FeatureFits(m, lm.features[f]))
    && match lm
       case Fixed(probs, _) => |probs| == |m.levels| && forall o :: 0 <= o < |m.levels| ==> |probs[o]| == Size(m.levels[o])
       case Smoothing(own, st, params, probs, bows, _) =>
         && SharesGrams(m, own) && WellFormed(own) && E.SettingFits(own, st) && E.ParamsFit(own, st, params)
         && Tables(own, probs, bows)
         && (st.tuneParams || forall o :: 0 < o < |m.levels| ==> S.AllDefined(st.discs[o]))
  }

  /** What estimating the component leaves: the first orders done, up to all of them or to one
      whose parameters are refused, and the others as they were. */
  ghost predicate EstimatedTo(lm: LM, probs: seq<seq<real>>, bows: seq<seq<real>>, done: nat)
    requires lm.Smoothing? && WellFormed(lm.m) && E.SettingFits(lm.m, lm.st) && E.ParamsFit(lm.m, lm.st, lm.params)
    requires Tables(lm.m, lm.probs, lm.bows)
  {
    && Tables(lm.m, probs, bows) && probs[0] == lm.probs[0]
    && E.StopsAt(lm.m, lm.st, lm.params, done) && E.DoneTo(lm.m, lm.st, lm.params, done, probs, bows)
    && E.Untouched(lm.m, done, probs, bows, lm.probs, lm.bows)
  }

  ghost predicate IsEstimate(m: Model, lm: LM, probs: seq<seq<real>>)
    requires LMFits(m, lm)
  {
    if lm.Fixed? then probs == lm.probs else exists bows, done: nat :: EstimatedTo(lm, probs, bows, done)
  }

  /** Estimates a component. Whether it was refused is not asked. */
  method EstimateLM(m: Model, lm: LM) returns (probs: seq<seq<real>>)
    requires LMFits(m, lm)
    ensures IsEstimate(m, lm, probs)
  {
    if lm.Fixed? {
      return lm.probs;
    }
    hide WellFormed, E.SettingFits, E.ParamsFit, E.StopsAt, E.DoneTo, E.Untouched, E.EndsAs, SharesGrams, Tables;
    var r, bows;
    ghost var done;
    probs, bows, r, done := L.Run(lm.m, lm.st, lm.params, lm.probs, lm.bows);
    FirstKept(lm, probs, bows);
    assert EstimatedTo(lm, probs, bows, done);
  }

  lemma FirstKept(lm: LM, probs: seq<seq<real>>, bows: seq<seq<real>>)
    requires lm.Smoothing? && WellFormed(lm.m) && Tables(lm.m, lm.probs, lm.bows) && Tables(lm.m, probs, bows)
    ensures |probs| > 0 && |lm.probs| > 0
  {
  }

  /** The tables agree on everything the masks request of the orders from 1. */
  ghost predicate AgreeOn(m: Model, masks: seq<seq<bool>>, probs: seq<seq<real>>, full: seq<seq<real>>)
  {
    && |masks| == |probs| == |full| == |m.levels|
    && forall o :: 0 < o < |m.levels| ==> E.AgreesOn(masks[o], probs[o], full[o])
  }

  /** Masks a component with what the interpolation requests and estimates what that needs: on
      the request it agrees with the full estimate, refused or not. */
  method EstimateLMMasked(m: Model, lm: LM, probMasks: seq<seq<bool>>, bowMasks: seq<seq<bool>>, ghost full: seq<seq<real>>)
    returns (probs: seq<seq<real>>)
    requires LMFits(m, lm) && E.Shaped(m, probMasks, bowMasks) && IsEstimate(m, lm, full)
    ensures AgreeOn(m, probMasks, probs, full) && forall o :: 0 <= o < |m.levels| ==> |probs[o]| == Size(m.levels[o])
  {
    if lm.Fixed? {
      return lm.probs;
    }
    hide WellFormed, E.SettingFits, E.ParamsFit, E.StopsAt, E.DoneTo, E.Untouched, E.EndsAs, E.AgreesTo, E.Closed,
         E.DiscsFollow, E.AllWithin, Tables;
    ghost var fullBows: seq<seq<real>>, done: nat :| EstimatedTo(lm, full, fullBows, done);
    var k := E.GetMask(lm.m, probMasks, bowMasks);
    FirstKept(lm, full, fullBows);
    var r, bows;
    r, probs, bows := E.EstimateAllMasked(lm.m, lm.st, lm.params, k, lm.probs, lm.bows, full, fullBows, done);
    MaskedOnRequest(m, lm, k, probMasks, probs, bows, full, fullBows, done);
  }

  lemma MaskedOnRequest(m: Model, lm: LM, k: E.Masks, probMasks: seq<seq<bool>>, probs: seq<seq<real>>, bows: seq<seq<real>>,
                        full: seq<seq<real>>, fullBows: seq<seq<real>>, done: nat)
    requires lm.Smoothing? && LMFits(m, lm) && EstimatedTo(lm, full, fullBows, done)
    requires E.Shaped(lm.m, k.probs, k.bows) && |probMasks| == |m.levels| && E.AllWithin(probMasks, k.probs)
    requires Tables(lm.m, probs, bows) && E.AgreesTo(lm.m, k, done, probs, bows, full, fullBows)
    requires E.Untouched(lm.m, done, probs, bows, lm.probs, lm.bows)
    ensures AgreeOn(m, probMasks, probs, full)
  {
    hide WellFormed, E.SettingFits, E.ParamsFit, E.DoneTo;
    forall o | 0 < o < |m.levels|
      ensures E.AgreesOn(probMasks[o], probs[o], full[o])
    {
      assert E.Within(probMasks[o], k.probs[o]);
      if o <= done {
        assert E.AgreesOn(k.probs[o], probs[o], full[o]);
      } else {
        assert probs[o] == lm.probs[o] == full[o];
      }
    }
  }

  // ----- the interpolated model -----

  ghost predicate AllFit(m: Model, lms: seq<LM>)
  {
    forall l :: 0 <= l < |lms| ==> LMFits(m, lms[l])
  }

  ghost predicate AllEstimates(m: Model, lms: seq<LM>, comps: seq<Component>)
    requires AllFit(m, lms)
  {
    && |comps| == |lms|
    && forall l :: 0 <= l < |lms| ==> comps[l].features == lms[l].features && IsEstimate(m, lms[l], comps[l].probs)
  }

  lemma EstimateFits(m: Model, lm: LM, probs: seq<seq<real>>)
    requires LMFits(m, lm) && IsEstimate(m, lm, probs)
    ensures ComponentFits(m, Component(probs, lm.features))
  {
    hide E.SettingFits, E.ParamsFit, E.StopsAt, E.DoneTo, E.Untouched, WellFormed;
    if lm.Smoothing? {
      var bows, done: nat :| EstimatedTo(lm, probs, bows, done);
    }
  }

  lemma ComponentsFit(m: Model, lms: seq<LM>, comps: seq<Component>)
    requires AllFit(m, lms) && AllEstimates(m, lms, comps)
    ensures forall l :: 0 <= l < |comps| ==> ComponentFits(m, comps[l])
  {
    hide LMFits, IsEstimate, ComponentFits;
    forall l | 0 <= l < |comps|
      ensures ComponentFits(m, comps[l])
    {
      EstimateFits(m, lms[l], comps[l].probs);
    }
  }

  /** The parameters fit the components. */
  ghost predicate ParamsShaped(m: Model, lms: seq<LM>, par: Params)
  {
    && |lms| > 0 && |par.bias| == |par.feats| == |m.levels|
    && (forall o :: 0 < o < |m.levels| ==> |par.bias[o]| == |par.feats[o]| == |lms|)
    && (forall o, l :: 0 < o < |m.levels| && 0 <= l < |lms| ==> |par.feats[o][l]| == |lms[l].features|)
  }

  lemma ComponentsUsable(m: Model, lms: seq<LM>, comps: seq<Component>, par: Params)
    requires AllFit(m, lms) && AllEstimates(m, lms, comps) && ParamsShaped(m, lms, par)
    ensures Fits(m, comps, par)
  {
    hide LMFits, IsEstimate, ComponentFits;
    ComponentsFit(m, lms, comps);
  }

  method EstimateComponents(m: Model, lms: seq<LM>) returns (comps: seq<Component>)
    requires AllFit(m, lms)
    ensures AllEstimates(m, lms, comps)
  {
    hide LMFits, IsEstimate;
    comps := [];
    for l := 0 to |lms|
      invariant |comps| == l
      invariant forall j :: 0 <= j < l ==> comps[j].features == lms[j].features && IsEstimate(m, lms[j], comps[j].probs)
    {
      var probs := EstimateLM(m, lms[l]);
      comps := comps + [Component(probs, lms[l].features)];
    }
  }

  /** Estimates all components and interpolates them. */
  method EstimateMixture(m: Model, lms: seq<LM>, par: Params, exp: real -> real, probs0: seq<seq<real>>, bows0: seq<seq<Weight>>)
    returns (probs: seq<seq<real>>, bows: seq<seq<Weight>>, ghost comps: seq<Component>)
    requires WellFormed(m) && AllFit(m, lms) && ParamsShaped(m, lms, par) && Positive(exp)
    requires InterTables(m, probs0, bows0) && probs0[0] == [0.0]
    ensures AllEstimates(m, lms, comps) && Fits(m, comps, par)
    ensures InterTables(m, probs, bows) && InterEstimated(m, comps, par, exp, probs, bows)
  {
    hide WellFormed, AllFit, AllEstimates, ParamsShaped, Positive, Fits, InterEstimated;
    var estimated := EstimateComponents(m, lms);
    comps := estimated;
    ComponentsUsable(m, lms, comps, par);
    probs, bows := Estimate(m, estimated, par, exp, probs0, bows0);
  }

  /** Requested entries agree with the full ones. */
  ghost predicate Agrees(m: Model, probMasks: seq<seq<bool>>, bowMasks: seq<seq<bool>>, probs: seq<seq<real>>,
                         bows: seq<seq<Weight>>, fullProbs: seq<seq<real>>, fullBows: seq<seq<Weight>>)
    requires |bowMasks| == |bows| == |fullBows| == |m.levels| - 1
  {
    && AgreeOn(m, probMasks, probs, fullProbs)
    && forall o :: 0 <= o < |m.levels| - 1 ==> AgreesOnWeights(bowMasks[o], bows[o], fullBows[o])
  }

  method MaskComponents(m: Model, lms: seq<LM>, k: InterMasks, ghost full: seq<Component>) returns (comps: seq<Component>)
    requires AllFit(m, lms) && AllEstimates(m, lms, full) && E.Shaped(m, k.probs, k.bows)
    requires forall l :: 0 <= l < |full| ==> ComponentFits(m, full[l])
    ensures |comps| == |full| && ComponentsAgree(m, k, comps, full)
    ensures forall l :: 0 <= l < |comps| ==> ComponentFits(m, comps[l])
  {
    hide LMFits, IsEstimate, FeatureFits;
    comps := [];
    for l := 0 to |lms|
      invariant |comps| == l
      invariant forall j :: 0 <= j < l ==> ComponentAgrees(m, k, comps[j], full[j]) && ComponentFits(m, comps[j])
    {
      var probs := EstimateLMMasked(m, lms[l], k.probs, k.bows, full[l].probs);
      FeaturesKept(m, lms[l]);
      comps := comps + [Component(probs, lms[l].features)];
    }
  }

  lemma FeaturesKept(m: Model, lm: LM)
    requires LMFits(m, lm)
    ensures forall f :: 0 <= f < |lm.features| ==> FeatureFits(m, lm.features[f])
  {
  }

  lemma MaskedUsable(m: Model, lms: seq<LM>, full: seq<Component>, comps: seq<Component>, par: Params, k: InterMasks)
    requires Fits(m, full, par) && ComponentsAgree(m, k, comps, full)
    requires forall l :: 0 <= l < |comps| ==> ComponentFits(m, comps[l])
    ensures Fits(m, comps, par)
  {
    hide ComponentFits;
    forall l | 0 <= l < |comps|
      ensures comps[l].features == full[l].features
    {
      assert ComponentAgrees(m, k, comps[l], full[l]);
    }
  }

  /** Closes the request, masks and estimates every component on it, and interpolates: on every
      requested entry the result is that of any full estimate. */
  method EstimateMixtureMasked(m: Model, lms: seq<LM>, par: Params, exp: real -> real, probMasks: seq<seq<bool>>,
                               bowMasks: seq<seq<bool>>, initial: seq<seq<bool>>, probs0: seq<seq<real>>,
                               bows0: seq<seq<Weight>>, ghost full: seq<Component>, ghost fullProbs: seq<seq<real>>,
                               ghost fullBows: seq<seq<Weight>>)
    returns (probs: seq<seq<real>>, bows: seq<seq<Weight>>)
    requires WellFormed(m) && AllFit(m, lms) && Positive(exp) && InterTables(m, probs0, bows0) && probs0[0] == [0.0]
    requires E.Shaped(m, probMasks, bowMasks)
    requires |initial| == |m.levels| - 1 && forall o :: 0 <= o < |initial| ==> |initial[o]| == Size(m.levels[o])
    requires AllEstimates(m, lms, full) && Fits(m, full, par)
    requires InterTables(m, fullProbs, fullBows) && InterEstimated(m, full, par, exp, fullProbs, fullBows)
    ensures InterTables(m, probs, bows) && Agrees(m, probMasks, bowMasks, probs, bows, fullProbs, fullBows)
  {
    hide WellFormed, AllFit, AllEstimates, Positive, Fits, InterEstimated, InterClosed, ComponentsAgree, InterAgreesAt,
         E.AllWithin, ComponentFits, Agrees;
    var k := GetMask(m, probMasks, bowMasks, initial);
    ComponentsFit(m, lms, full);
    var comps := MaskComponents(m, lms, k, full);
    MaskedUsable(m, lms, full, comps, par, k);
    probs, bows := EstimateMasked(m, comps, par, exp, k, probs0, bows0, full, fullProbs, fullBows);
    RequestAgrees(m, k, probMasks, bowMasks, probs, bows, fullProbs, fullBows);
  }

  lemma RequestAgrees(m: Model, k: InterMasks, probMasks: seq<seq<bool>>, bowMasks: seq<seq<bool>>, probs: seq<seq<real>>,
                      bows: seq<seq<Weight>>, fullProbs: seq<seq<real>>, fullBows: seq<seq<Weight>>)
    requires InterShaped(m, k) && k.bows == bowMasks && E.AllWithin(probMasks, k.probs)
    requires InterTables(m, probs, bows) && InterTables(m, fullProbs, fullBows)
    requires forall o :: 0 < o < |m.levels| ==> InterAgreesAt(k, o, probs, bows, fullProbs, fullBows)
    ensures Agrees(m, probMasks, bowMasks, probs, bows, fullProbs, fullBows)
  {
    forall o | 0 < o < |m.levels|
      ensures E.AgreesOn(probMasks[o], probs[o], fullProbs[o])
    {
      assert InterAgreesAt(k, o, probs, bows, fullProbs, fullBows);
      assert E.Within(probMasks[o], k.probs[o]);
    }
    forall o | 0 <= o < |m.levels| - 1
      ensures AgreesOnWeights(bowMasks[o], bows[o], fullBows[o])
    {
      assert InterAgreesAt(k, o + 1, probs, bows, fullProbs, fullBows);
    }
  }

  // ----- normalisation -----

  /** Every word has a unigram. */
  lemma UnigramOf(m: Model, w: nat) returns (i: nat)
    requires WellFormed(m) && w < m.vocab
    ensures |m.levels[1].hists| == |m.levels[1].words| && i < |m.levels[1].words| && IsGram(m.levels[1], 0, w, i)
  {
    UnigramWords(m);
    var words := m.levels[1].words;
    if w !in words {
      forall a, b | 0 <= a < b < |words|
        ensures words[a] != words[b]
      {
        assert m.levels[1].hists[a] == m.levels[1].hists[b];
      }
      SnocDistinct(words, w);
      forall v: nat | v < m.vocab
        ensures v in Positions(m.vocab)
      {
        assert Positions(m.vocab)[v] == v;
      }
      var j := Pigeonhole(words + [w], Positions(m.vocab));
      assert false;
    }
    i :| 0 <= i < |words| && words[i] == w;
  }

  lemma UnigramAfter(m: Model, base: int -> real, probs: seq<seq<real>>, bows: seq<seq<real>>, w: nat)
    requires WellFormed(m) && Tables(m, probs, bows) && w < m.vocab
    ensures After(m, base, probs, bows, 1, 0)(w) == Sum(|m.levels[1].words|, EndingIn(m.levels[1], ProbTerm(probs[1]), w))
  {
    hide Sum, Mixed;
    UnigramWords(m);
    var l, f := m.levels[1], EndingIn(m.levels[1], ProbTerm(probs[1]), w);
    var k := UnigramOf(m, w);
    FindsGram(l, 0, probs[1], bows[0][0], Lower(m, base, probs, bows, 1, 0), k);
    forall i | 0 <= i < |l.words| && i != k
      ensures f(i) == 0.0
    {
      OtherGram(l, 0, w, k, i);
      assert l.hists[i] == 0;
      assert WordOf(l)(i) == l.words[i];
    }
    SumPick(|l.words|, k, f);
    assert WordOf(l)(k) == w;
  }

  /** The unigrams of a finished Kneser-Ney estimate add up to one. */
  lemma SmoothedUnigrams(m: Model, st: E.Setting, params: seq<seq<real>>, probs: seq<seq<real>>, bows: seq<seq<real>>, p0: real)
    requires WellFormed(m) && E.SettingFits(m, st) && K.SuffixClosed(m) && |params| == |m.levels| && Tables(m, probs, bows)
    requires forall q :: 0 < q < |m.levels| ==> E.Usable(st, params, q)
    requires E.DoneTo(m, st, params, |m.levels| - 1, probs, bows)
    requires Support(m) > 0 && p0 == 1.0 / Support(m) as real && probs[0] == [p0]
    ensures |probs| > 1 && UnigramMass(probs[1]) == 1.0
  {
    hide E.SettingFits, K.SuffixClosed, E.Usable, E.DoneTo, Support, Sum, Mixed, Base;
    L.EstimateNormalises(m, st, params, probs, bows, p0, 1, 0);
    UnigramWords(m);
    var after := After(m, Base(m, p0), probs, bows, 1, 0);
    forall w | 0 <= w < m.vocab
      ensures after(w) == Sum(|m.levels[1].words|, EndingIn(m.levels[1], ProbTerm(probs[1]), w))
    {
      UnigramAfter(m, Base(m, p0), probs, bows, w);
    }
    SumByWord(m.levels[1], m.vocab, ProbTerm(probs[1]), after);
  }

  /** A Kneser-Ney component whose parameters are accepted, over a model with suffix-closed counts
      in which some word occurs; or a fixed one whose unigrams add up to one. */
  ghost predicate Proportioned(lm: LM)
  {
    match lm
    case Fixed(probs, _) => |probs| > 1 && UnigramMass(probs[1]) == 1.0
    case Smoothing(own, st, params, probs, _, _) =>
      && WellFormed(own) && K.SuffixClosed(own) && Support(own) > 0 && |probs| > 0
      && probs[0] == [1.0 / Support(own) as real] && |params| == |own.levels| == |st.discs| == |st.features|
      && forall o :: 0 < o < |own.levels| ==> E.Usable(st, params, o)
  }

  lemma EstimatedUnigrams(m: Model, lm: LM, probs: seq<seq<real>>)
    requires LMFits(m, lm) && IsEstimate(m, lm, probs) && Proportioned(lm)
    ensures |probs| > 1 && UnigramMass(probs[1]) == 1.0
  {
    hide WellFormed, E.SettingFits, E.ParamsFit, K.SuffixClosed, Support, E.Usable, UnigramMass, Tables, EstimatedTo;
    if lm.Smoothing? {
      var bows, done: nat :| EstimatedTo(lm, probs, bows, done);
      FinishedUnigrams(lm, probs, bows, done);
    }
  }

  lemma FinishedUnigrams(lm: LM, probs: seq<seq<real>>, bows: seq<seq<real>>, done: nat)
    requires lm.Smoothing? && WellFormed(lm.m) && E.SettingFits(lm.m, lm.st) && E.ParamsFit(lm.m, lm.st, lm.params)
    requires Tables(lm.m, lm.probs, lm.bows) && EstimatedTo(lm, probs, bows, done) && Proportioned(lm)
    ensures |probs| > 1 && UnigramMass(probs[1]) == 1.0
  {
    hide WellFormed, E.SettingFits, E.ParamsFit, E.DoneTo, E.Untouched, K.SuffixClosed, Support, E.Usable, UnigramMass, Tables;
    E.LevelCount(lm.m);
    assert done == |lm.m.levels| - 1;
    SmoothedUnigrams(lm.m, lm.st, lm.params, probs, bows, lm.probs[0][0]);
  }

  /** Interpolated Kneser-Ney models normalise: after every history along whose suffixes no lower
      order is used up by seen words, the probabilities add up to one. */
  lemma MixtureNormalises(m: Model, lms: seq<LM>, comps: seq<Component>, par: Params, exp: real -> real,
                          probs: seq<seq<real>>, bows: seq<seq<Weight>>, o: nat, h: nat)
    requires WellFormed(m) && AllFit(m, lms) && AllEstimates(m, lms, comps) && Fits(m, comps, par) && Positive(exp)
    requires forall l :: 0 <= l < |lms| ==> Proportioned(lms[l])
    requires InterTables(m, probs, bows) && InterEstimated(m, comps, par, exp, probs, bows)
    requires 0 < o < |m.levels| && h < Size(m.levels[o - 1]) && Unsaturated(m, probs, bows, o, h)
    ensures Sum(m.vocab, AfterHistory(m, probs, bows, o, h)) == 1.0
  {
    hide WellFormed, LMFits, IsEstimate, Proportioned, Fits, Positive, InterEstimated, UnigramMass, Sum;
    forall l | 0 <= l < |comps|
      ensures |comps[l].probs| > 1 && UnigramMass(comps[l].probs[1]) == 1.0
    {
      EstimatedUnigrams(m, lms[l], comps[l].probs);
    }
    InterpolationNormalises(m, comps, par, exp, probs, bows, o, h);
  }
}
