/** Log-linear interpolation of component models: what the loops compute for one order, and
    that the resulting backoff weights make every history add up to one. */
module Interpolation {
  import opened Arithmetic
  import opened Sums
  import opened Backoff

  /** One component: its probabilities by order and its features of the histories. */
  datatype Component = Component(probs: seq<seq<real>>, features: seq<seq<seq<real>>>)

  /** Bias and feature parameters of every order and component; component 0 has no bias. */
  datatype Params = Params(bias: seq<seq<real>>, feats: seq<seq<seq<real>>>)

  /** A quotient whose denominator may vanish. */
  datatype Weight = Defined(v: real) | Undefined

  ghost predicate ComponentFits(m: Model, c: Component)
  {
    && |c.probs| == |m.levels|
    && (forall o :: 0 <= o < |m.levels| ==> |c.probs[o]| == Size(m.levels[o]))
    && (forall f :: 0 <= f < |c.features| ==> FeatureFits(m, c.features[f]))
  }

  ghost predicate FeatureFits(m: Model, f: seq<seq<real>>)
  {
    |f| == |m.levels| && forall o :: 0 <= o < |m.levels| ==> |f[o]| == Size(m.levels[o])
  }

  ghost predicate ParamsFit(m: Model, comps: seq<Component>, par: Params)
  {
    && |par.bias| == |par.feats| == |m.levels|
    && (forall o :: 0 < o < |m.levels| ==> |par.bias[o]| == |par.feats[o]| == |comps|)
    && (forall o, l :: 0 < o < |m.levels| && 0 <= l < |comps| ==> |par.feats[o][l]| == |comps[l].features|)
  }

  ghost predicate Fits(m: Model, comps: seq<Component>, par: Params)
  {
    && |comps| > 0 && (forall l :: 0 <= l < |comps| ==> ComponentFits(m, comps[l]))
    && ParamsFit(m, comps, par)
  }

  // ----- weights -----

  /** The first n features of history h, weighed; zero parameters are skipped. */
  function FeatureSum(features: seq<seq<seq<real>>>, params: seq<real>, o: nat, h: nat, n: nat): real
    requires n <= |features| && n <= |params| && 0 < o
    requires forall f :: 0 <= f < n ==> o - 1 < |features[f]| && h < |features[f][o - 1]|
  {
    if n == 0 then 0.0
    else FeatureSum(features, params, o, h, n - 1)
         + (if params[n - 1] == 0.0 then 0.0 else features[n - 1][o - 1][h] * params[n - 1])
  }

  ghost predicate Covered(m: Model, comps: seq<Component>, par: Params, o: nat, h: nat, l: nat)
  {
    && 0 < o < |m.levels| && l < |comps| && Fits(m, comps, par) && h < Size(m.levels[o - 1])
  }

  ghost function WeightOf(m: Model, comps: seq<Component>, par: Params, exp: real -> real, o: nat, h: nat, l: nat): real
    requires Covered(m, comps, par, o, h, l)
  {
    assert forall f :: 0 <= f < |comps[l].features| ==> FeatureFits(m, comps[l].features[f]);
    exp((if l == 0 then 0.0 else par.bias[o][l])
        + FeatureSum(comps[l].features, par.feats[o][l], o, h, |comps[l].features|))
  }

  ghost function FeatureTerm(features: seq<seq<seq<real>>>, params: seq<real>, o: nat, h: nat): int -> real
    requires 0 < o
  {
    f => if 0 <= f < |features| && f < |params| && o - 1 < |features[f]| && h < |features[f][o - 1]|
         then features[f][o - 1][h] * params[f] else 0.0
  }

  lemma {:induction false} FeatureSumIs(features: seq<seq<seq<real>>>, params: seq<real>, o: nat, h: nat, n: nat)
    requires n <= |features| && n <= |params| && 0 < o
    requires forall f :: 0 <= f < n ==> o - 1 < |features[f]| && h < |features[f][o - 1]|
    ensures FeatureSum(features, params, o, h, n) == Sum(n, FeatureTerm(features, params, o, h))
  {
    if n > 0 {
      FeatureSumIs(features, params, o, h, n - 1);
      var x, y := features[n - 1][o - 1][h], params[n - 1];
      assert y == 0.0 ==> x * y == 0.0;
    }
  }

  /** A weight is the exponential of the bias, which the first component does not have, and the
      product of the features of the history with their parameters. */
  lemma WeightIs(m: Model, comps: seq<Component>, par: Params, exp: real -> real, o: nat, h: nat, l: nat)
    requires Covered(m, comps, par, o, h, l)
    ensures var bias := if l == 0 then 0.0 else par.bias[o][l];
            var sum := Sum(|comps[l].features|, FeatureTerm(comps[l].features, par.feats[o][l], o, h));
            WeightOf(m, comps, par, exp, o, h, l) == exp(bias + sum)
  {
    assert forall f :: 0 <= f < |comps[l].features| ==> FeatureFits(m, comps[l].features[f]);
    FeatureSumIs(comps[l].features, par.feats[o][l], o, h, |comps[l].features|);
  }

  /** Total weight of the first n components. */
  ghost function TotWeight(m: Model, comps: seq<Component>, par: Params, exp: real -> real, o: nat, h: nat, n: nat): real
    requires 0 < o < |m.levels| && n <= |comps| && Fits(m, comps, par) && h < Size(m.levels[o - 1])
  {
    if n == 0 then 0.0
    else TotWeight(m, comps, par, exp, o, h, n - 1) + WeightOf(m, comps, par, exp, o, h, n - 1)
  }

  /** Weighted probability of n-gram i over the first n components. */
  ghost function Mix(m: Model, comps: seq<Component>, par: Params, exp: real -> real, o: nat, i: nat, n: nat): real
    requires 0 < o < |m.levels| && n <= |comps| && Fits(m, comps, par)
    requires i < Size(m.levels[o]) && i < |m.levels[o].hists| && m.levels[o].hists[i] < Size(m.levels[o - 1])
  {
    if n == 0 then 0.0
    else
      assert ComponentFits(m, comps[n - 1]);
      Mix(m, comps, par, exp, o, i, n - 1)
      + comps[n - 1].probs[o][i] * WeightOf(m, comps, par, exp, o, m.levels[o].hists[i], n - 1)
  }

  ghost predicate Positive(exp: real -> real)
  {
    forall x :: exp(x) > 0.0
  }

  lemma {:induction false} TotWeightPositive(m: Model, comps: seq<Component>, par: Params, exp: real -> real, o: nat, h: nat, n: nat)
    requires 0 < o < |m.levels| && 0 < n <= |comps| && Fits(m, comps, par) && h < Size(m.levels[o - 1]) && Positive(exp)
    ensures TotWeight(m, comps, par, exp, o, h, n) > 0.0
  {
    if n > 1 {
      TotWeightPositive(m, comps, par, exp, o, h, n - 1);
    }
  }

  ghost function InterProb(m: Model, comps: seq<Component>, par: Params, exp: real -> real, o: nat, i: nat): real
    requires 0 < o < |m.levels| && Fits(m, comps, par) && Positive(exp)
    requires i < Size(m.levels[o]) && i < |m.levels[o].hists| && m.levels[o].hists[i] < Size(m.levels[o - 1])
  {
    TotWeightPositive(m, comps, par, exp, o, m.levels[o].hists[i], |comps|);
    Mix(m, comps, par, exp, o, i, |comps|) / TotWeight(m, comps, par, exp, o, m.levels[o].hists[i], |comps|)
  }

  // ----- backoff weights -----

  /** Seen probability after a history, and what the lower order gives the seen words. */
  ghost function SeenTerm(l: Level, probs: seq<real>, h: nat): int -> real
    requires |l.hists| == |l.words| == |probs|
  {
    i => if 0 <= i < |l.words| && l.hists[i] == h then probs[i] else 0.0
  }

  ghost function LowerTerm(l: Level, lo: seq<real>, h: nat): int -> real
    requires |l.hists| == |l.words| == |l.backoffs| && forall i :: 0 <= i < |l.backoffs| ==> l.backoffs[i] < |lo|
  {
    i => if 0 <= i < |l.words| && l.hists[i] == h then lo[l.backoffs[i]] else 0.0
  }

  ghost function Numerator(l: Level, probs: seq<real>, h: nat): real
    requires |l.hists| == |l.words| == |probs|
  {
    Sum(|l.words|, SeenTerm(l, probs, h))
  }

  ghost function Denominator(l: Level, lo: seq<real>, h: nat): real
    requires |l.hists| == |l.words| == |l.backoffs| && forall i :: 0 <= i < |l.backoffs| ==> l.backoffs[i] < |lo|
  {
    Sum(|l.words|, LowerTerm(l, lo, h))
  }

  function BowFrom(num: real, den: real): Weight
  {
    if 1.0 - den == 0.0 then Undefined else Defined((1.0 - num) / (1.0 - den))
  }

  function Value(w: Weight): real
  {
    if w.Defined? then w.v else 0.0
  }

  /** Which backoff weights make a history add up to one when its lower distribution does: only
      the estimated one, unless the seen words take the whole lower distribution. Then the
      estimated one is undefined, and every weight or none will do. */
  lemma BowNormalises(l: Level, h: nat, vocab: nat, probs: seq<real>, lo: seq<real>, lower: int -> real,
                      mixed: int -> real, bow: real)
    requires |l.hists| == |l.words| == |l.backoffs| == |probs| && UniqueGrams(l)
    requires forall i :: 0 <= i < |l.words| ==> l.words[i] < vocab && l.backoffs[i] < |lo|
    requires forall i :: 0 <= i < |l.words| && l.hists[i] == h ==> lo[l.backoffs[i]] == lower(l.words[i])
    requires Sum(vocab, lower) == 1.0
    requires forall w :: 0 <= w < vocab ==> mixed(w) == Mixed(l, h, probs, bow, lower, w)
    ensures Sum(vocab, mixed) == 1.0 <==>
            match BowFrom(Numerator(l, probs, h), Denominator(l, lo, h))
            case Defined(v) => bow == v
            case Undefined => Numerator(l, probs, h) == 1.0
  {
    hide Sum, Mixed, UniqueGrams, BowFrom;
    var num, den := Numerator(l, probs, h), Denominator(l, lo, h);
    BackoffSum(l, h, vocab, probs, bow, lower, mixed);
    var gain, seen, low := Gain(l, h, probs, bow, lower), SeenTerm(l, probs, h), LowerTerm(l, lo, h);
    var scaled := (i: int) => bow * low(i);
    SumScale(|l.words|, bow, low, scaled);
    forall i | 0 <= i < |l.words|
      ensures seen(i) == gain(i) + scaled(i)
    {
    }
    SumAdd(|l.words|, gain, scaled, seen);
    BowBalances(bow, num, den);
  }

  lemma BowBalances(bow: real, num: real, den: real)
    ensures bow * 1.0 + (num - bow * den) == 1.0 <==>
            match BowFrom(num, den)
            case Defined(v) => bow == v
            case Undefined => num == 1.0
  {
    assert bow * 1.0 + (num - bow * den) == bow * (1.0 - den) + num;
    if den != 1.0 && bow * (1.0 - den) == 1.0 - num {
      QuotientIs(bow, 1.0 - num, 1.0 - den);
    }
  }

  // ----- unigrams -----

  ghost function UnigramMass(p: seq<real>): real
  {
    Sum(|p|, ProbTerm(p))
  }

  ghost function ProbTerm(p: seq<real>): int -> real
  {
    i => if 0 <= i < |p| then p[i] else 0.0
  }

  ghost function MixTerm(m: Model, comps: seq<Component>, par: Params, exp: real -> real, n: nat): int -> real
    requires WellFormed(m) && n <= |comps| && Fits(m, comps, par)
  {
    assert Sits(m.levels[1], m.levels[0], m.vocab);
    i => if 0 <= i < Size(m.levels[1]) then Mix(m, comps, par, exp, 1, i, n) else 0.0
  }

  /** The unigram weights do not depend on the word: there is only the empty history. */
  lemma {:induction false} MixUnigrams(m: Model, comps: seq<Component>, par: Params, exp: real -> real, n: nat)
    requires WellFormed(m) && n <= |comps| && Fits(m, comps, par)
    requires forall l :: 0 <= l < |comps| ==> |comps[l].probs| > 1 && UnigramMass(comps[l].probs[1]) == 1.0
    ensures Sum(Size(m.levels[1]), MixTerm(m, comps, par, exp, n)) == TotWeight(m, comps, par, exp, 1, 0, n)
  {
    hide WeightOf, Sum;
    var size := Size(m.levels[1]);
    assert Sits(m.levels[1], m.levels[0], m.vocab);
    if n == 0 {
      SumZero(size, MixTerm(m, comps, par, exp, 0));
    } else {
      MixUnigrams(m, comps, par, exp, n - 1);
      assert ComponentFits(m, comps[n - 1]);
      var w := WeightOf(m, comps, par, exp, 1, 0, n - 1);
      var p := ProbTerm(comps[n - 1].probs[1]);
      var scaled := (i: int) => w * p(i);
      SumScale(size, w, p, scaled);
      SumAdd(size, MixTerm(m, comps, par, exp, n - 1), scaled, MixTerm(m, comps, par, exp, n));
    }
  }

  ghost function InterTerm(m: Model, comps: seq<Component>, par: Params, exp: real -> real): int -> real
    requires WellFormed(m) && Fits(m, comps, par) && Positive(exp)
  {
    assert Sits(m.levels[1], m.levels[0], m.vocab);
    i => if 0 <= i < Size(m.levels[1]) then InterProb(m, comps, par, exp, 1, i) else 0.0
  }

  lemma CancelFactor(s: real, d: real, x: real)
    requires d > 0.0 && x == d * s && x == d
    ensures s == 1.0
  {
  }

  /** Interpolating distributions over the words gives one. */
  lemma UnigramsNormalise(m: Model, comps: seq<Component>, par: Params, exp: real -> real)
    requires WellFormed(m) && Fits(m, comps, par) && Positive(exp)
    requires forall l :: 0 <= l < |comps| ==> |comps[l].probs| > 1 && UnigramMass(comps[l].probs[1]) == 1.0
    ensures Sum(Size(m.levels[1]), InterTerm(m, comps, par, exp)) == 1.0
  {
    hide Sum, UnigramMass, Mix, TotWeight;
    var size, tot := Size(m.levels[1]), TotWeight(m, comps, par, exp, 1, 0, |comps|);
    assert Sits(m.levels[1], m.levels[0], m.vocab);
    TotWeightPositive(m, comps, par, exp, 1, 0, |comps|);
    MixUnigrams(m, comps, par, exp, |comps|);
    var inter, mix := InterTerm(m, comps, par, exp), MixTerm(m, comps, par, exp, |comps|);
    forall i | 0 <= i < size
      ensures mix(i) == tot * inter(i)
    {
      TimesQuotient(Mix(m, comps, par, exp, 1, i, |comps|), tot);
    }
    SumScale(size, tot, inter, mix);
    CancelFactor(Sum(size, inter), tot, Sum(size, mix));
  }
}
