/** A loaded corpus is what the smoothing expects: a well-formed model with suffix-closed counts. */
module LoadedModel {
  import opened Sorting
  import opened NgramVector
  import opened NgramTrie
  import opened BackoffLinks
  import opened CorpusCounts
  import opened CorpusScan
  import opened NgramModel
  import opened SortedLinks
  import opened CorpusModel
  import B = Backoff
  import K = KneserNey

  function Nat(x: int): nat
  {
    if x < 0 then 0 else x
  }

  /** One order in the form the smoothing reads. */
  function LevelOf(keys: seq<Gram>, links: seq<int>, counts: seq<nat>): B.Level
    requires |links| == |keys| == |counts|
  {
    B.Level(seq(|keys|, i requires 0 <= i < |keys| => Nat(keys[i].0)),
            seq(|keys|, i requires 0 <= i < |keys| => Nat(keys[i].1)),
            seq(|keys|, i requires 0 <= i < |keys| => Nat(links[i])), counts)
  }

  ghost predicate Loaded(u: Trie, counts: seq<seq<nat>>, links: seq<seq<int>>, v: nat)
  {
    && TrieOk(u) && |u| > 1 && CountsOk(u, counts) && InVocab(u, v) && |u[1]| == v
    && |links| == |u| && links[0] == [0] && forall o :: 0 < o < |u| ==> LinksRight(u, o, links[o])
  }

  ghost function AsModel(u: Trie, counts: seq<seq<nat>>, links: seq<seq<int>>, v: nat, fixedVocab: bool): (m: B.Model)
    requires Loaded(u, counts, links, v)
    ensures |m.levels| == |u| && m.vocab == v
    ensures forall o :: 0 <= o < |u| ==> |links[o]| == |u[o]| == |counts[o]| && m.levels[o] == LevelOf(u[o], links[o], counts[o])
  {
    assert forall o :: 0 < o < |u| ==> LinksRight(u, o, links[o]);
    B.Model(v, fixedVocab, seq(|u|, o requires 0 <= o < |u| =>
      assert o > 0 ==> LinksRight(u, o, links[o]);
      LevelOf(u[o], links[o], counts[o])))
  }

  lemma LevelSits(u: Trie, counts: seq<seq<nat>>, links: seq<seq<int>>, v: nat, o: nat)
    requires Loaded(u, counts, links, v) && 0 < o < |u|
    ensures |links[o]| == |u[o]| == |counts[o]| && |links[o - 1]| == |u[o - 1]| == |counts[o - 1]|
    ensures B.Sits(LevelOf(u[o], links[o], counts[o]), LevelOf(u[o - 1], links[o - 1], counts[o - 1]), v)
  {
    hide InVocab;
    assert LinksRight(u, o, links[o]);
    assert o > 1 ==> LinksRight(u, o - 1, links[o - 1]);
    assert LevelOk(u[o], |u[o - 1]|);
    var l, lo := LevelOf(u[o], links[o], counts[o]), LevelOf(u[o - 1], links[o - 1], counts[o - 1]);
    forall i | 0 <= i < |u[o]|
      ensures l.hists[i] == u[o][i].0 < B.Size(lo) && l.words[i] == u[o][i].1 < v && l.backoffs[i] == links[o][i] < B.Size(lo)
    {
      assert LinkIs(u, o, i, links[o][i]);
      WordBelow(u, v, o, i);
    }
    forall i, j | 0 <= i < j < |u[o]|
      ensures l.hists[i] != l.hists[j] || l.words[i] != l.words[j]
    {
      assert u[o][i] != u[o][j];
    }
  }

  lemma WordBelow(u: Trie, v: nat, o: nat, i: nat)
    requires InVocab(u, v) && 0 < o < |u| && i < |u[o]|
    ensures 0 <= u[o][i].1 < v
  {
  }

  lemma LevelSuffix(u: Trie, counts: seq<seq<nat>>, links: seq<seq<int>>, v: nat, o: nat, i: nat)
    requires Loaded(u, counts, links, v) && 1 < o < |u| && i < |u[o]|
    ensures |links[o]| == |u[o]| && |links[o - 1]| == |u[o - 1]| && 0 <= links[o][i] < |u[o - 1]| && 0 <= u[o][i].0 < |u[o - 1]|
    ensures u[o - 1][links[o][i]].1 == u[o][i].1 && u[o - 1][links[o][i]].0 == links[o - 1][u[o][i].0]
  {
    hide InVocab;
    assert LinksRight(u, o, links[o]) && LinksRight(u, o - 1, links[o - 1]);
    var b, h := links[o][i], u[o][i].0;
    assert LinkIs(u, o, i, b);
    WordsParts(u, o, i);
    WordsParts(u, o - 1, b);
    assert LinkIs(u, o - 1, h, links[o - 1][h]);
    var ws := Words(u, o, i);
    assert ws[1..][o - 2] == ws[o - 1];
    assert ws[1..][..o - 2] == ws[..o - 1][1..];
    SpellsOnce(u, o - 2, u[o - 1][b].0, links[o - 1][h]);
  }

  /** A loaded corpus is a well-formed backoff model. */
  lemma LoadedIsWellFormed(u: Trie, counts: seq<seq<nat>>, links: seq<seq<int>>, v: nat, fixedVocab: bool)
    requires Loaded(u, counts, links, v)
    ensures B.WellFormed(AsModel(u, counts, links, v, fixedVocab))
  {
    hide InVocab, LinksRight;
    var m := AsModel(u, counts, links, v, fixedVocab);
    forall o | 0 < o < |u|
      ensures B.Sits(m.levels[o], m.levels[o - 1], v)
    {
      LevelSits(u, counts, links, v, o);
    }
    forall o | 1 < o < |u|
      ensures B.Suffixes(m.levels[o], m.levels[o - 1])
    {
      LevelSits(u, counts, links, v, o);
      LevelSits(u, counts, links, v, o - 1);
      LevelSuffixes(u, counts, links, v, o);
    }
  }

  lemma LevelSuffixes(u: Trie, counts: seq<seq<nat>>, links: seq<seq<int>>, v: nat, o: nat)
    requires Loaded(u, counts, links, v) && 1 < o < |u| == |links| == |counts|
    requires |links[o]| == |u[o]| == |counts[o]| && |links[o - 1]| == |u[o - 1]| == |counts[o - 1]|
    ensures B.Suffixes(LevelOf(u[o], links[o], counts[o]), LevelOf(u[o - 1], links[o - 1], counts[o - 1]))
  {
    hide Loaded;
    var l, lo := LevelOf(u[o], links[o], counts[o]), LevelOf(u[o - 1], links[o - 1], counts[o - 1]);
    forall i | 0 <= i < |u[o]|
      ensures B.IsSuffix(l, lo, i)
    {
      LevelSuffix(u, counts, links, v, o, i);
    }
  }

  /** An n-gram that occurs links to one that occurs: the counts are suffix-closed. */
  lemma LoadedIsSuffixClosed(t: Trie, u: Trie, counts: seq<seq<nat>>, links: seq<seq<int>>, v: nat, fixedVocab: bool,
                             maps: seq<seq<nat>>, vocabMap: seq<nat>, lines: seq<seq<int>>)
    requires Loaded(u, counts, links, v) && |u| == |t| && Sorted(t, u, maps, vocabMap)
    requires AllCounted(t, counts, maps, lines) && AllPresent(t, lines)
    ensures K.SuffixClosed(AsModel(u, counts, links, v, fixedVocab))
  {
    hide Loaded, Sorted, AllCounted, AllPresent, K.ClosedOver, TrieOk;
    SortedTrie(t, u, maps, vocabMap);
    LoadedSize(u, counts, links, v);
    var m := AsModel(u, counts, links, v, fixedVocab);
    forall o | 1 < o < |u|
      ensures K.ClosedOver(m.levels[o], m.levels[o - 1])
    {
      LevelSits(u, counts, links, v, o);
      LevelClosed(t, u, counts, links, v, maps, vocabMap, lines, o);
    }
  }

  lemma LevelClosed(t: Trie, u: Trie, counts: seq<seq<nat>>, links: seq<seq<int>>, v: nat, maps: seq<seq<nat>>,
                    vocabMap: seq<nat>, lines: seq<seq<int>>, o: nat)
    requires Loaded(u, counts, links, v) && |u| == |t| && Sorted(t, u, maps, vocabMap) && 1 < o < |u| == |links| == |counts|
    requires |links[o]| == |u[o]| == |counts[o]| && |links[o - 1]| == |u[o - 1]| == |counts[o - 1]|
    requires TrieOk(t) && AllCounted(t, counts, maps, lines) && AllPresent(t, lines)
    ensures K.ClosedOver(LevelOf(u[o], links[o], counts[o]), LevelOf(u[o - 1], links[o - 1], counts[o - 1]))
  {
    hide Loaded, Sorted, AllCounted, AllPresent, TrieOk;
    forall k | 0 <= k < |u[o]| && counts[o][k] > 0
      ensures 0 <= links[o][k] < |counts[o - 1]| && counts[o - 1][links[o][k]] > 0
    {
      SuffixOccurs(t, u, counts, links, v, maps, vocabMap, lines, o, k);
    }
  }

  lemma LoadedSize(u: Trie, counts: seq<seq<nat>>, links: seq<seq<int>>, v: nat)
    requires Loaded(u, counts, links, v)
    ensures |u| == |counts| == |links|
  {
  }

  lemma SortedTrie(t: Trie, u: Trie, maps: seq<seq<nat>>, vocabMap: seq<nat>)
    requires Sorted(t, u, maps, vocabMap)
    ensures TrieOk(t) && TrieOk(u) && |u| == |maps| && InVocab(t, |vocabMap|)
  {
  }

  lemma SuffixOccurs(t: Trie, u: Trie, counts: seq<seq<nat>>, links: seq<seq<int>>, v: nat, maps: seq<seq<nat>>,
                     vocabMap: seq<nat>, lines: seq<seq<int>>, o: nat, k: nat)
    requires Loaded(u, counts, links, v) && |u| == |t| && Sorted(t, u, maps, vocabMap) && 1 < o < |u| && k < |u[o]|
    requires TrieOk(t) && AllCounted(t, counts, maps, lines) && AllPresent(t, lines)
    requires |counts[o]| == |u[o]| && counts[o][k] > 0 && |links[o]| == |u[o]|
    ensures 0 <= links[o][k] < |counts[o - 1]| && counts[o - 1][links[o][k]] > 0
  {
    hide InVocab, Sorted, CorpusCount;
    SortedTrie(t, u, maps, vocabMap);
    var i := SortedOnto(t, u, maps, vocabMap, o, k);
    assert CountedAs(t, counts, maps, lines, o, i);
    var ws := Words(t, o, i);
    SuffixCount(lines, |lines|, o, ws);
    assert Present(t, o - 1, ws[1..]);
    var s :| Spells(t, o - 1, s, ws[1..]);
    assert CountedAs(t, counts, maps, lines, o - 1, s);
    SortedAt(t, u, maps, vocabMap, o - 1, s);
    SameRenaming(t, vocabMap, o, i, s);
    assert LinksRight(u, o, links[o]);
    assert LinkIs(u, o, k, links[o][k]);
    SpellsOnce(u, o - 1, links[o][k], maps[o - 1][s]);
  }

  /** Loading a corpus whose n-grams are not stranded, so any corpus up to order two, yields a
      model whose Kneser-Ney estimates normalise: well formed, with an n-gram's suffix occurring
      whenever the n-gram does. */
  method LoadModel(hash: Gram -> nat, order: nat, tokens: seq<seq<int>>, v: nat, vocabMap: seq<nat>, ghost fixedVocab: bool)
    returns (u: Trie, counts: seq<seq<nat>>, links: seq<seq<int>>, t: Trie, maps: seq<seq<nat>>)
    requires order > 0 && v > 0 && Permutation(vocabMap, v) && vocabMap[0] == 0
    requires forall n :: 0 <= n < |tokens| ==> LineBelow(tokens[n], v)
    ensures |u| == |t| == order + 1 && Sorted(t, u, maps, vocabMap) && SortOutcome(t, u, maps, vocabMap)
    ensures AllCounted(t, counts, maps, AllMarked(tokens)) && AllPresent(t, AllMarked(tokens))
    ensures LinksSafe(t, u, maps, vocabMap) ==>
              && Loaded(u, counts, links, v) && B.WellFormed(AsModel(u, counts, links, v, fixedVocab))
              && K.SuffixClosed(AsModel(u, counts, links, v, fixedVocab))
    ensures order <= 2 ==> LinksSafe(t, u, maps, vocabMap)
  {
    hide B.WellFormed, K.SuffixClosed, AllCounted, AllPresent, LinksRight, Permutation, LinksSafe, TablesFit, Links, SortOutcome;
    var after: Tables;
    u, counts, links, t, maps, after := LoadCorpus(hash, order, tokens, v, vocabMap);
    PermutationSize(vocabMap, v);
    SortedTrie(t, u, maps, vocabMap);
    if LinksSafe(t, u, maps, vocabMap) {
      EmptyLink(hash, u, after);
      LoadedIsWellFormed(u, counts, links, v, fixedVocab);
      LoadedIsSuffixClosed(t, u, counts, links, v, fixedVocab, maps, vocabMap, AllMarked(tokens));
    }
  }

  lemma EmptyLink(hash: Gram -> nat, u: Trie, after: Tables)
    requires TrieOk(u) && TablesFit(u, after)
    ensures Links(hash, u, after, 0) == [0]
  {
  }
}
