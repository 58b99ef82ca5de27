/** Merging one model into another, and spelling n-grams out. */
module ModelMerging {
  import opened NgramVector
  import opened NgramTrie
  import opened NgramModel

  // ----- spelling -----

  /** The words of an n-gram as strings, read from the last to the first; a first word that is
      the sentence marker is shown as the start of a sentence. */
  method GetNgramWords(t: Trie, vocab: seq<string>, o: nat, i: nat) returns (ws: seq<string>)
    requires TrieOk(t) && InVocab(t, |vocab|) && 0 < o < |t| && i < |t[o]|
    ensures |ws| == o
    ensures AllBelow(Words(t, o, i), |vocab|)
    ensures forall p :: 0 < p < o ==> ws[p] == vocab[Words(t, o, i)[p]]
    ensures ws[0] == if Words(t, o, i)[0] == 0 then "<s>" else vocab[Words(t, o, i)[0]]
  {
    hide InVocab;
    WordsInVocab(t, |vocab|, o, i);
    ghost var all := Words(t, o, i);
    ws := seq(o, _ => "");
    var word, index, k := INVALID, i, o;
    while k > 0
      invariant 0 <= k <= o && |ws| == o && 0 <= index < |t[k]| && Words(t, k, index) == all[..k]
      invariant forall p :: k <= p < o ==> ws[p] == vocab[all[p]]
      invariant k < o ==> word == all[k]
    {
      WordsParts(t, k, index);
      assert all[..k][k - 1] == all[k - 1] && all[..k][..k - 1] == all[..k - 1];
      word := t[k][index].1;
      ws := ws[k - 1 := vocab[word]];
      index := t[k][index].0;
      k := k - 1;
    }
    if word == 0 {
      ws := ws[0 := "<s>"];
    }
  }

  // ----- merging -----

  /** u holds the n-grams of m up to order n, renamed: gram i of order o is number maps[o][i]. */
  ghost predicate MergedTo(m: Trie, u: Trie, maps: seq<seq<nat>>, vocabMap: seq<nat>, n: nat)
    requires TrieOk(m) && TrieOk(u) && InVocab(m, |vocabMap|) && n <= |maps| && n <= |m| && n <= |u|
  {
    forall o :: 0 <= o < n ==> |maps[o]| == |m[o]| && LevelMerged(m, u, maps[o], vocabMap, o)
  }

  ghost predicate LevelMerged(m: Trie, u: Trie, to: seq<nat>, vocabMap: seq<nat>, o: nat)
    requires TrieOk(m) && TrieOk(u) && InVocab(m, |vocabMap|) && o < |m| && o < |u| && |to| <= |m[o]|
  {
    forall i :: 0 <= i < |to| ==> RenamedAt(m, u, vocabMap, o, i, to[i])
  }

  /** Every n-gram of u is one of t or a renamed one of m. */
  ghost predicate OnlyMerged(t: Trie, m: Trie, u: Trie, vocabMap: seq<nat>)
    requires TrieOk(t) && TrieOk(m) && TrieOk(u) && InVocab(m, |vocabMap|) && |t| == |u|
  {
    forall o, k :: 0 <= o < |u| && 0 <= k < |u[o]| ==> FromEither(t, m, u, vocabMap, o, k)
  }

  ghost predicate FromEither(t: Trie, m: Trie, u: Trie, vocabMap: seq<nat>, o: nat, k: nat)
    requires TrieOk(t) && TrieOk(m) && TrieOk(u) && InVocab(m, |vocabMap|) && |t| == |u| && o < |u| && k < |u[o]|
  {
    k < |t[o]| || (o < |m| && exists i :: 0 <= i < |m[o]| && RenamedAt(m, u, vocabMap, o, i, k))
  }

  lemma RenamedStays(m: Trie, u: Trie, w: Trie, vocabMap: seq<nat>, o: nat, i: nat, k: nat)
    requires TrieOk(m) && TrieOk(u) && TrieOk(w) && Extends(u, w) && InVocab(m, |vocabMap|) && o < |m| && o < |u| && i < |m[o]|
    requires RenamedAt(m, u, vocabMap, o, i, k)
    ensures RenamedAt(m, w, vocabMap, o, i, k)
  {
    WordsInVocab(m, |vocabMap|, o, i);
    WordsStay(u, w, o, k);
  }

  /** Adding a renamed n-gram under its renamed history. */
  lemma MergeOne(t: Trie, m: Trie, u: Trie, vocabMap: seq<nat>, o: nat, i: nat, h: nat)
    requires TrieOk(t) && TrieOk(m) && TrieOk(u) && InVocab(m, |vocabMap|) && |t| == |u| && Extends(t, u)
    requires 0 < o < |m| && o < |u| && i < |m[o]| && 0 <= m[o][i].0 < |m[o - 1]| && 0 <= m[o][i].1 < |vocabMap|
    requires RenamedAt(m, u, vocabMap, o - 1, m[o][i].0, h) && OnlyMerged(t, m, u, vocabMap)
    ensures var g := (h as int, vocabMap[m[o][i].1] as int); var w := u[o := Added(u[o], g)];
            && TrieOk(w) && Extends(u, w) && Extends(t, w) && 0 <= Position(w[o], g)
            && RenamedAt(m, w, vocabMap, o, i, Position(w[o], g)) && OnlyMerged(t, m, w, vocabMap)
  {
    hide InVocab, RenamedAt;
    var g := (h as int, vocabMap[m[o][i].1] as int);
    RenamedBound(m, u, vocabMap, o - 1, m[o][i].0, h);
    AddedTrie(u, o, g);
    var w := u[o := Added(u[o], g)];
    AddedRenamed(m, u, w, vocabMap, o, i, h, Position(w[o], g));
    forall q, k | 0 <= q < |w| && 0 <= k < |w[q]|
      ensures FromEither(t, m, w, vocabMap, q, k)
    {
      if k < |u[q]| {
        assert FromEither(t, m, u, vocabMap, q, k);
        if k >= |t[q]| {
          var j :| 0 <= j < |m[q]| && RenamedAt(m, u, vocabMap, q, j, k);
          RenamedStays(m, u, w, vocabMap, q, j, k);
        }
      } else {
        assert q == o && k == |u[o]| && w[o][k] == g;
        assert LevelOk(w[o], |w[o - 1]|);
        assert k == Position(w[o], g);
      }
    }
  }

  lemma RenamedBound(m: Trie, u: Trie, vocabMap: seq<nat>, o: nat, i: nat, k: nat)
    requires TrieOk(m) && TrieOk(u) && InVocab(m, |vocabMap|) && o < |m| && o < |u| && i < |m[o]|
    requires RenamedAt(m, u, vocabMap, o, i, k)
    ensures k < |u[o]|
  {
  }

  lemma AddedRenamed(m: Trie, u: Trie, w: Trie, vocabMap: seq<nat>, o: nat, i: nat, h: nat, k: nat)
    requires TrieOk(m) && TrieOk(u) && TrieOk(w) && InVocab(m, |vocabMap|) && 0 < o < |m| && o < |u| && |w| == |u|
    requires i < |m[o]| && 0 <= m[o][i].0 < |m[o - 1]| && 0 <= m[o][i].1 < |vocabMap|
    requires RenamedAt(m, u, vocabMap, o - 1, m[o][i].0, h)
    requires Spells(w, o, k, Words(u, o - 1, h) + [vocabMap[m[o][i].1] as int])
    ensures RenamedAt(m, w, vocabMap, o, i, k)
  {
    WordsInVocab(m, |vocabMap|, o, i);
    WordsInVocab(m, |vocabMap|, o - 1, m[o][i].0);
    WordsParts(m, o, i);
    var ws := Words(m, o, i);
    assert ws == Words(m, o - 1, m[o][i].0) + [m[o][i].1];
    assert Renamed(ws, vocabMap) == Renamed(Words(m, o - 1, m[o][i].0), vocabMap) + [vocabMap[m[o][i].1] as int];
  }

  /** All n-grams of one order of m. */
  method MergeLevel(ghost t: Trie, m: Trie, u0: Trie, vocabMap: seq<nat>, o: nat, below: seq<nat>)
    returns (u: Trie, to: seq<nat>)
    requires TrieOk(t) && TrieOk(m) && TrieOk(u0) && InVocab(m, |vocabMap|) && |t| == |u0| && Extends(t, u0)
    requires 0 < o < |m| && o < |u0| && |below| == |m[o - 1]| && LevelMerged(m, u0, below, vocabMap, o - 1)
    requires OnlyMerged(t, m, u0, vocabMap)
    ensures |u| == |u0| && TrieOk(u) && Extends(u0, u) && Extends(t, u) && OnlyMerged(t, m, u, vocabMap)
    ensures |to| == |m[o]| && LevelMerged(m, u, to, vocabMap, o)
  {
    hide InVocab, RenamedAt, OnlyMerged, Extends, TrieOk, LevelMerged;
    u, to := u0, [];
    ExtendsSelf(u0);
    NothingMerged(m, u0, vocabMap, o);
    for i := 0 to |m[o]|
      invariant |u| == |u0| && TrieOk(u) && Extends(u0, u) && Extends(t, u) && OnlyMerged(t, m, u, vocabMap)
      invariant |to| == i && LevelMerged(m, u, to, vocabMap, o)
      invariant LevelMerged(m, u, below, vocabMap, o - 1)
    {
      KeyBounds(m, |vocabMap|, o, i);
      MergedAt(m, u, below, vocabMap, o - 1, m[o][i].0);
      var hist, word := below[m[o][i].0], vocabMap[m[o][i].1];
      MergeOne(t, m, u, vocabMap, o, i, hist);
      var w := u[o := Added(u[o], (hist, word))];
      var index := Position(w[o], (hist, word));
      ExtendsTrans(u0, u, w);
      MergedStays(m, u, w, below, vocabMap, o - 1);
      MergedStays(m, u, w, to, vocabMap, o);
      MergedSnoc(m, w, to, vocabMap, o, index);
      u, to := w, to + [index];
    }
  }

  lemma KeyBounds(m: Trie, v: nat, o: nat, i: nat)
    requires TrieOk(m) && InVocab(m, v) && 0 < o < |m| && i < |m[o]|
    ensures 0 <= m[o][i].0 < |m[o - 1]| && 0 <= m[o][i].1 < v
  {
    assert LevelOk(m[o], |m[o - 1]|);
  }

  lemma ExtendsSelf(u: Trie)
    ensures Extends(u, u)
  {
  }

  lemma ExtendsTrans(t: Trie, u: Trie, w: Trie)
    requires Extends(t, u) && Extends(u, w)
    ensures Extends(t, w)
  {
    forall o | 0 <= o < |t|
      ensures t[o] <= w[o]
    {
      assert t[o] <= u[o] && u[o] <= w[o];
    }
  }

  lemma NothingMerged(m: Trie, u: Trie, vocabMap: seq<nat>, o: nat)
    requires TrieOk(m) && TrieOk(u) && InVocab(m, |vocabMap|) && o < |m| && o < |u|
    ensures LevelMerged(m, u, [], vocabMap, o)
  {
  }

  lemma MergedAt(m: Trie, u: Trie, to: seq<nat>, vocabMap: seq<nat>, o: nat, i: nat)
    requires TrieOk(m) && TrieOk(u) && InVocab(m, |vocabMap|) && o < |m| && o < |u| && |to| <= |m[o]|
    requires LevelMerged(m, u, to, vocabMap, o) && i < |to|
    ensures RenamedAt(m, u, vocabMap, o, i, to[i])
  {
  }

  lemma MergedStays(m: Trie, u: Trie, w: Trie, to: seq<nat>, vocabMap: seq<nat>, o: nat)
    requires TrieOk(m) && TrieOk(u) && TrieOk(w) && InVocab(m, |vocabMap|) && o < |m| && o < |u| && |to| <= |m[o]|
    requires Extends(u, w) && LevelMerged(m, u, to, vocabMap, o)
    ensures o < |w| && LevelMerged(m, w, to, vocabMap, o)
  {
    hide InVocab, RenamedAt, TrieOk;
    forall i | 0 <= i < |to|
      ensures RenamedAt(m, w, vocabMap, o, i, to[i])
    {
      RenamedStays(m, u, w, vocabMap, o, i, to[i]);
    }
  }

  lemma MergedSnoc(m: Trie, u: Trie, to: seq<nat>, vocabMap: seq<nat>, o: nat, index: nat)
    requires TrieOk(m) && TrieOk(u) && InVocab(m, |vocabMap|) && o < |m| && o < |u| && |to| < |m[o]|
    requires LevelMerged(m, u, to, vocabMap, o) && RenamedAt(m, u, vocabMap, o, |to|, index)
    ensures LevelMerged(m, u, to + [index], vocabMap, o)
  {
  }

  /** Adds all n-grams of m, renamed into the vocabulary of t: the result is exactly the union,
      and the maps lead every n-gram of m to its renamed self. */
  method ExtendModel(t: Trie, m: Trie, vocabMap: seq<nat>) returns (u: Trie, maps: seq<seq<nat>>)
    requires TrieOk(t) && TrieOk(m) && InVocab(m, |vocabMap|)
    ensures |u| == Larger(|t|, |m|) && TrieOk(u) && Extends(Widened(t, |u|), u) && TrieOk(Widened(t, |u|))
    ensures |maps| == |m| && MergedTo(m, u, maps, vocabMap, |m|)
    ensures OnlyMerged(Widened(t, |u|), m, u, vocabMap)
  {
    hide InVocab, RenamedAt, OnlyMerged, Extends, TrieOk, LevelMerged;
    WidenedOk(t, Larger(|t|, |m|));
    u := Widened(t, Larger(|t|, |m|));
    ghost var base := u;
    maps := [[0]];
    MergeStart(base, m, vocabMap);
    var o := 1;
    while o < |m|
      invariant 1 <= o && (o <= |m| || |m| == 0) && |maps| == o && |u| == |base|
      invariant TrieOk(u) && Extends(base, u) && OnlyMerged(base, m, u, vocabMap)
      invariant MergedTo(m, u, maps, vocabMap, o)
    {
      ghost var before := u;
      var to;
      assert |maps[o - 1]| == |m[o - 1]|;
      u, to := MergeLevel(base, m, u, vocabMap, o, maps[o - 1]);
      forall q | 0 <= q < o
        ensures LevelMerged(m, u, maps[q], vocabMap, q)
      {
        MergedStays(m, before, u, maps[q], vocabMap, q);
      }
      maps := maps + [to];
      o := o + 1;
    }
  }

  /** t with empty higher orders. */
  function Widened(t: Trie, n: nat): Trie
    requires |t| <= n
  {
    t + seq(n - |t|, _ => [])
  }

  lemma WidenedOk(t: Trie, n: nat)
    requires TrieOk(t) && |t| <= n
    ensures TrieOk(Widened(t, n)) && |Widened(t, n)| == n && Extends(Widened(t, n), Widened(t, n))
  {
    var w := Widened(t, n);
    forall o | 0 < o < |w|
      ensures LevelOk(w[o], |w[o - 1]|)
    {
      if o < |t| {
        assert LevelOk(t[o], |t[o - 1]|);
      } else {
        assert w[o] == [];
      }
    }
  }

  lemma MergeStart(t: Trie, m: Trie, vocabMap: seq<nat>)
    requires TrieOk(t) && TrieOk(m) && InVocab(m, |vocabMap|) && |m| <= |t|
    ensures |m| > 0 && MergedTo(m, t, [[0]], vocabMap, 1) && OnlyMerged(t, m, t, vocabMap)
  {
    assert Words(m, 0, 0) == [] && Words(t, 0, 0) == [];
    assert RenamedAt(m, t, vocabMap, 0, 0, 0);
  }
}
