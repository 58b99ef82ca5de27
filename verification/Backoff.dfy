/** Backoff n-gram models: the n-grams of every order with their histories and suffixes, the
    probability they define for a word after a history, and what its total depends on. */
module Backoff {
  import opened Sums

  /** The n-grams of one order: history (in the order below), last word, the n-gram without
      its first word (in the order below), and corpus count. */
  datatype Level = Level(hists: seq<nat>, words: seq<nat>, backoffs: seq<nat>, counts: seq<nat>)

  /** Orders 0 to n; order 0 holds the one empty n-gram. */
  datatype Model = Model(vocab: nat, fixedVocab: bool, levels: seq<Level>)

  function Size(l: Level): nat
  {
    |l.words|
  }

  ghost predicate UniqueGrams(l: Level)
    requires |l.hists| == |l.words|
  {
    forall i, j :: 0 <= i < j < |l.words| ==> l.hists[i] != l.hists[j] || l.words[i] != l.words[j]
  }

  /** The n-grams of l extend and shorten to n-grams of lo. */
  ghost predicate Sits(l: Level, lo: Level, vocab: nat)
  {
    && |l.hists| == |l.words| == |l.backoffs| == |l.counts|
    && (forall i :: 0 <= i < |l.words| ==> l.hists[i] < Size(lo) && l.backoffs[i] < Size(lo) && l.words[i] < vocab)
    && UniqueGrams(l)
  }

  /** The suffix of an n-gram ends in the same word and its history is the suffix of the history. */
  ghost predicate Suffixes(l: Level, lo: Level)
  {
    forall i :: 0 <= i < |l.words| && i < |l.hists| && i < |l.backoffs| ==> IsSuffix(l, lo, i)
  }

  ghost predicate IsSuffix(l: Level, lo: Level, i: nat)
    requires i < |l.words| && i < |l.hists| && i < |l.backoffs|
  {
    var b := l.backoffs[i];
    && b < |lo.words| && b < |lo.hists| && l.hists[i] < |lo.backoffs|
    && lo.words[b] == l.words[i] && lo.hists[b] == lo.backoffs[l.hists[i]]
  }

  ghost predicate WellFormed(m: Model)
  {
    && |m.levels| > 1 && Size(m.levels[0]) == 1 && m.levels[0].backoffs == [0] && |m.levels[0].hists| == 1
    && Size(m.levels[1]) == m.vocab
    && (forall o :: 0 < o < |m.levels| ==> Sits(m.levels[o], m.levels[o - 1], m.vocab))
    && (forall o :: 1 < o < |m.levels| ==> Suffixes(m.levels[o], m.levels[o - 1]))
  }

  // ----- the probability of a word after a history -----

  ghost predicate IsGram(l: Level, h: nat, w: int, i: int)
    requires |l.hists| == |l.words|
  {
    0 <= i < |l.words| && l.hists[i] == h && l.words[i] == w
  }

  ghost predicate Seen(l: Level, h: nat, w: int)
    requires |l.hists| == |l.words|
  {
    exists i :: IsGram(l, h, w, i)
  }

  ghost function IndexOf(l: Level, h: nat, w: int): (i: nat)
    requires |l.hists| == |l.words| && Seen(l, h, w)
    ensures IsGram(l, h, w, i)
  {
    var i :| IsGram(l, h, w, i);
    i
  }

  /** Probability tables of the orders and backoff weights of their histories. */
  ghost predicate Tables(m: Model, probs: seq<seq<real>>, bows: seq<seq<real>>)
  {
    && |probs| == |m.levels| && |bows| == |m.levels| - 1
    && (forall o :: 0 <= o < |m.levels| ==> |probs[o]| == Size(m.levels[o]))
    && (forall o :: 0 <= o < |m.levels| - 1 ==> |bows[o]| == Size(m.levels[o]))
  }

  /** Seen words have their own probability, others the weighted probability of lower. */
  ghost function Mixed(l: Level, h: nat, probs: seq<real>, bow: real, lower: int -> real, w: int): real
    requires |l.hists| == |l.words| == |probs|
  {
    if Seen(l, h, w) then probs[IndexOf(l, h, w)] else bow * lower(w)
  }

  /** Probability of word w after history h, an n-gram of order o - 1. */
  ghost function WordProb(m: Model, base: int -> real, probs: seq<seq<real>>, bows: seq<seq<real>>, o: nat, h: nat, w: int): real
    requires WellFormed(m) && Tables(m, probs, bows) && o < |m.levels|
    requires o > 0 ==> h < Size(m.levels[o - 1])
    decreases o
  {
    if o == 0 then base(w)
    else
      assert o > 1 ==> Sits(m.levels[o - 1], m.levels[o - 2], m.vocab);
      assert Sits(m.levels[o], m.levels[o - 1], m.vocab);
      Mixed(m.levels[o], h, probs[o], bows[o - 1][h], Lower(m, base, probs, bows, o, h), w)
  }

  /** The distribution order o backs off to after h. */
  ghost function Lower(m: Model, base: int -> real, probs: seq<seq<real>>, bows: seq<seq<real>>, o: nat, h: nat): int -> real
    requires WellFormed(m) && Tables(m, probs, bows) && 0 < o < |m.levels|
    requires h < Size(m.levels[o - 1])
    decreases o, 0
  {
    assert o > 1 ==> Sits(m.levels[o - 1], m.levels[o - 2], m.vocab);
    w => WordProb(m, base, probs, bows, o - 1, if o == 1 then 0 else m.levels[o - 1].backoffs[h], w)
  }

  // ----- what the probabilities add up to -----

  /** What seeing n-gram i adds over backing off. */
  ghost function Gain(l: Level, h: nat, probs: seq<real>, bow: real, lower: int -> real): int -> real
    requires |l.hists| == |l.words| == |probs|
  {
    i => if 0 <= i < |l.words| && l.hists[i] == h then probs[i] - bow * lower(l.words[i]) else 0.0
  }

  ghost function WordOf(l: Level): int -> int
  {
    i => if 0 <= i < |l.words| then l.words[i] else 0
  }

  /** The part of f on the n-grams that end in w. */
  ghost function EndingIn(l: Level, f: int -> real, w: int): int -> real
  {
    i => if WordOf(l)(i) == w then f(i) else 0.0
  }

  /** A sum over n-grams, taken word by word. */
  lemma SumByWord(l: Level, vocab: nat, f: int -> real, g: int -> real)
    requires forall i :: 0 <= i < |l.words| ==> l.words[i] < vocab
    requires forall w :: 0 <= w < vocab ==> g(w) == Sum(|l.words|, EndingIn(l, f, w))
    ensures Sum(|l.words|, f) == Sum(vocab, g)
  {
    hide Sum;
    SumGroup(|l.words|, vocab, WordOf(l), f);
    forall w | 0 <= w < vocab
      ensures g(w) == Sum(|l.words|, i => if WordOf(l)(i) == w then f(i) else 0.0)
    {
      SumEq(|l.words|, EndingIn(l, f, w), i => if WordOf(l)(i) == w then f(i) else 0.0);
    }
    SumEq(vocab, g, w => Sum(|l.words|, i => if WordOf(l)(i) == w then f(i) else 0.0));
  }

  lemma GainOfWord(l: Level, h: nat, probs: seq<real>, bow: real, lower: int -> real, w: nat)
    requires |l.hists| == |l.words| == |probs| && UniqueGrams(l)
    ensures bow * lower(w) + Sum(|l.words|, EndingIn(l, Gain(l, h, probs, bow, lower), w)) == Mixed(l, h, probs, bow, lower, w)
  {
    var f := EndingIn(l, Gain(l, h, probs, bow, lower), w);
    forall i | 0 <= i < |l.words| && !IsGram(l, h, w, i)
      ensures f(i) == 0.0
    {
      assert WordOf(l)(i) == l.words[i];
    }
    if Seen(l, h, w) {
      var k := IndexOf(l, h, w);
      forall i | 0 <= i < |l.words| && i != k
        ensures f(i) == 0.0
      {
        OtherGram(l, h, w, k, i);
      }
      SumPick(|l.words|, k, f);
      assert WordOf(l)(k) == w && f(k) == probs[k] - bow * lower(w);
    } else {
      forall i | 0 <= i < |l.words|
        ensures f(i) == 0.0
      {
        assert !IsGram(l, h, w, i);
      }
      SumZero(|l.words|, f);
    }
  }

  lemma OtherGram(l: Level, h: nat, w: int, k: int, i: int)
    requires |l.hists| == |l.words| && UniqueGrams(l) && IsGram(l, h, w, k) && i != k
    ensures !IsGram(l, h, w, i)
  {
  }

  lemma SameGram(l: Level, h: nat, w: int, i: int, k: int)
    requires |l.hists| == |l.words| && UniqueGrams(l) && IsGram(l, h, w, i) && IsGram(l, h, w, k)
    ensures i == k
  {
  }

  /** The total after a history: the weighted total of the lower order and the gains. */
  lemma BackoffSum(l: Level, h: nat, vocab: nat, probs: seq<real>, bow: real, lower: int -> real, mixed: int -> real)
    requires |l.hists| == |l.words| == |probs| && UniqueGrams(l)
    requires forall i :: 0 <= i < |l.words| ==> l.words[i] < vocab
    requires forall w :: 0 <= w < vocab ==> mixed(w) == Mixed(l, h, probs, bow, lower, w)
    ensures Sum(vocab, mixed) == bow * Sum(vocab, lower) + Sum(|l.words|, Gain(l, h, probs, bow, lower))
  {
    hide Mixed, Sum;
    var gain := Gain(l, h, probs, bow, lower);
    var byWord := (w: int) => Sum(|l.words|, EndingIn(l, gain, w));
    SumByWord(l, vocab, gain, byWord);
    var scaled := (w: int) => bow * lower(w);
    SumScale(vocab, bow, lower, scaled);
    forall w | 0 <= w < vocab
      ensures mixed(w) == scaled(w) + byWord(w)
    {
      GainOfWord(l, h, probs, bow, lower, w);
    }
    SumAdd(vocab, scaled, byWord, mixed);
  }

  /** Looking an n-gram's last word up after its history finds that n-gram. */
  lemma FindsGram(l: Level, h: nat, probs: seq<real>, bow: real, lower: int -> real, i: nat)
    requires |l.hists| == |l.words| == |probs| && UniqueGrams(l) && i < |l.words| && l.hists[i] == h
    ensures Mixed(l, h, probs, bow, lower, l.words[i]) == probs[i]
  {
    assert IsGram(l, h, l.words[i], i);
    SameGram(l, h, l.words[i], i, IndexOf(l, h, l.words[i]));
  }

  /** The probability an n-gram's suffix has is what the lower order gives its last word. */
  lemma SuffixProb(m: Model, base: int -> real, probs: seq<seq<real>>, bows: seq<seq<real>>, o: nat, h: nat, i: nat)
    requires WellFormed(m) && Tables(m, probs, bows) && 1 < o < |m.levels| && h < Size(m.levels[o - 1])
    requires i < Size(m.levels[o]) && Sits(m.levels[o], m.levels[o - 1], m.vocab) && m.levels[o].hists[i] == h
    ensures probs[o - 1][m.levels[o].backoffs[i]] == Lower(m, base, probs, bows, o, h)(m.levels[o].words[i])
  {
    hide Mixed;
    var l, lo := m.levels[o], m.levels[o - 1];
    assert Sits(lo, m.levels[o - 2], m.vocab) && Suffixes(l, lo);
    var b, g := l.backoffs[i], lo.backoffs[h];
    assert IsSuffix(l, lo, i);
    FindsGram(lo, g, probs[o - 1], bows[o - 2][g], Lower(m, base, probs, bows, o - 1, g), b);
    assert WordProb(m, base, probs, bows, o - 1, g, l.words[i]) == probs[o - 1][b];
  }
}
