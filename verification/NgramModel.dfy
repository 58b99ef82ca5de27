/** Sorting a whole model: every order renamed, sorted and linked. */
module NgramModel {
  import opened Distinctness
  import opened Sorting
  import opened HashIndex
  import opened StaleIndex
  import opened NgramVector
  import opened NgramTrie
  import opened BackoffLinks

  // ----- sorting -----

  predicate AllBelow(ws: seq<int>, v: nat)
  {
    forall p :: 0 <= p < |ws| ==> 0 <= ws[p] < v
  }

  function Renamed(ws: seq<int>, vocabMap: seq<nat>): (r: seq<int>)
    requires AllBelow(ws, |vocabMap|)
    ensures |r| == |ws| && forall p :: 0 <= p < |ws| ==> r[p] == vocabMap[ws[p]]
  {
    seq(|ws|, p requires 0 <= p < |ws| => vocabMap[ws[p]] as int)
  }

  ghost predicate InVocab(t: Trie, v: nat)
  {
    forall o, i :: 0 < o < |t| && 0 <= i < |t[o]| ==> 0 <= t[o][i].1 < v
  }

  lemma {:induction false} WordsInVocab(t: Trie, v: nat, o: nat, i: nat)
    requires TrieOk(t) && InVocab(t, v) && o < |t| && i < |t[o]|
    ensures AllBelow(Words(t, o, i), v)
    decreases o
  {
    if o > 0 {
      WordsParts(t, o, i);
      WordsInVocab(t, v, o - 1, t[o][i].0);
      var ws := Words(t, o, i);
      forall p | 0 <= p < o
        ensures 0 <= ws[p] < v
      {
        assert p < o - 1 ==> ws[..o - 1][p] == ws[p];
      }
    }
  }

  /** Renaming by injective maps keeps n-grams different. */
  lemma RenamedDistinct(keys: seq<Gram>, vocabMap: seq<nat>, histMap: seq<nat>, v: nat, h: nat)
    requires Distinct(keys) && Permutation(vocabMap, v) && Permutation(histMap, h)
    requires forall i :: 0 <= i < |keys| ==> 0 <= keys[i].0 < h && 0 <= keys[i].1 < v
    ensures Distinct(AllMapped(keys, vocabMap, histMap))
  {
    var r := AllMapped(keys, vocabMap, histMap);
    forall i, j | 0 <= i < j < |keys|
      ensures r[i] != r[j]
    {
      assert keys[i] != keys[j];
      if keys[i].0 != keys[j].0 {
        assert histMap[keys[i].0] != histMap[keys[j].0];
      } else {
        assert vocabMap[keys[i].1] != vocabMap[keys[j].1];
      }
    }
  }

  /** One order of the sort, as NgramVector.Sort describes it. */
  method SortLevel(hash: Gram -> nat, keys: seq<Gram>, slots: Slots, vocabMap: seq<nat>, histMap: seq<nat>)
    returns (sorted: seq<Gram>, to: seq<nat>, after: Slots)
    requires Indexed(hash, keys, slots) && Permutation(vocabMap, |vocabMap|) && Permutation(histMap, |histMap|)
    requires forall i :: 0 <= i < |keys| ==> 0 <= keys[i].0 < |histMap| && 0 <= keys[i].1 < |vocabMap|
    ensures |sorted| == |keys| && Permutation(to, |keys|) && Distinct(sorted)
    ensures forall i :: 0 <= i < |keys| ==> sorted[to[i]] == Mapped(keys[i], vocabMap, histMap)
    ensures Ascending(sorted) <==> SomeStepUp(AllMapped(keys, vocabMap, histMap)) || |keys| <= 1
    ensures SortLeaves(hash, AllMapped(keys, vocabMap, histMap), slots, sorted, after)
    ensures TableShape(after, |sorted|)
  {
    hide Ascending, SomeStepUp, SortedBy, ByGram, Stored;
    RenamedDistinct(keys, vocabMap, histMap, |vocabMap|, |histMap|);
    var renamed := AllMapped(keys, vocabMap, histMap);
    var changed, order := SortIndices(renamed);
    if !changed {
      sorted, to, after := renamed, order, slots;
      FewAscend(renamed);
      return;
    }
    to := Invert(order);
    SortedGrams(renamed, order, to);
    sorted := Arranged(renamed, order);
    after := Reindex(hash, sorted, |slots|);
  }

  lemma FewAscend(keys: seq<Gram>)
    requires Distinct(keys) && !SomeStepUp(keys)
    ensures Ascending(keys) <==> |keys| <= 1
  {
    if |keys| > 0 {
      OrderWithoutStep(keys);
    }
  }

  lemma SortedLevelOk(t: Trie, u: Trie, o: nat, sorted: seq<Gram>, to: seq<nat>, vocabMap: seq<nat>, histMap: seq<nat>)
    requires TrieOk(t) && 0 < o < |t| && |u| == o && TrieOk(u) && InVocab(t, |vocabMap|)
    requires |u[o - 1]| == |t[o - 1]| && Permutation(histMap, |t[o - 1]|) && |sorted| == |t[o]|
    requires Permutation(to, |t[o]|) && Distinct(sorted)
    requires forall i :: 0 <= i < |t[o]| ==> 0 <= t[o][i].0 < |histMap|
    requires forall i :: 0 <= i < |t[o]| ==> sorted[to[i]] == Mapped(t[o][i], vocabMap, histMap)
    ensures TrieOk(u + [sorted])
  {
    var w := u + [sorted];
    forall k | 0 <= k < |sorted|
      ensures 0 <= sorted[k].0 < |t[o - 1]|
    {
      assert k in to;
      var i :| 0 <= i < |to| && to[i] == k;
      assert sorted[to[i]] == Mapped(t[o][i], vocabMap, histMap);
    }
    forall q | 0 < q < |w|
      ensures LevelOk(w[q], |w[q - 1]|)
    {
      if q < o {
        assert LevelOk(u[q], |u[q - 1]|);
      }
    }
  }

  /** Sorts all orders, passing the renumbering of each order on to the next, and then links
      the n-grams through the indices the sort leaves. */
  method SortModel(hash: Gram -> nat, t: Trie, tables: Tables, vocabMap: seq<nat>)
    returns (u: Trie, maps: seq<seq<nat>>, after: Tables, links: seq<seq<int>>)
    requires TrieOk(t) && InVocab(t, |vocabMap|) && Permutation(vocabMap, |vocabMap|) && AllIndexed(hash, t, tables)
    ensures |u| == |t| && Sorted(t, u, maps, vocabMap) && TablesLeft(hash, t, u, maps, vocabMap, tables, after)
    ensures TablesFit(u, after) && |links| == |u| && forall o :: 0 <= o < |u| ==> links[o] == Links(hash, u, after, o)
  {
    hide InVocab, Ascending, SomeStepUp, Indexed;
    u, maps, after := [[(0, 0)]], [[0]], [tables[0]];
    SortStart(t, vocabMap);
    FirstFits(hash, t, tables);
    for o := 1 to |t|
      invariant |u| == |maps| == o && Sorted(t, u, maps, vocabMap)
      invariant TablesLeft(hash, t, u, maps, vocabMap, tables, after) && TablesFit(u, after)
    {
      LevelReady(t, u, maps, vocabMap, o);
      var sorted, to, left := SortLevel(hash, t[o], tables[o], vocabMap, maps[o - 1]);
      SortStep(t, u, maps, vocabMap, o, sorted, to);
      LeftStep(hash, t, u, maps, vocabMap, tables, after, o, sorted, to, left);
      u, maps, after := u + [sorted], maps + [to], after + [left];
    }
    links := ComputeBackoffs(hash, u, after);
  }

  /** Order o after renaming, before it is sorted. */
  ghost function RenamedLevel(t: Trie, u: Trie, maps: seq<seq<nat>>, vocabMap: seq<nat>, o: nat): (r: seq<Gram>)
    requires Sorted(t, u, maps, vocabMap) && 0 < o < |t| && o <= |u|
    ensures |r| == |t[o]|
  {
    LevelReady(t, u, maps, vocabMap, o);
    AllMapped(t[o], vocabMap, maps[o - 1])
  }

  /** The indices after the sort: rebuilt for the orders that were sorted, else as before. */
  ghost predicate TablesLeft(hash: Gram -> nat, t: Trie, u: Trie, maps: seq<seq<nat>>, vocabMap: seq<nat>,
                             tables: Tables, after: Tables)
    requires Sorted(t, u, maps, vocabMap)
  {
    && |tables| == |t| && |after| == |u|
    && forall o :: 0 <= o < |u| ==> LevelLeft(hash, t, u, maps, vocabMap, tables, after, o)
  }

  ghost predicate LevelLeft(hash: Gram -> nat, t: Trie, u: Trie, maps: seq<seq<nat>>, vocabMap: seq<nat>,
                            tables: Tables, after: Tables, o: nat)
    requires Sorted(t, u, maps, vocabMap) && |tables| == |t| && |after| == |u| && o < |u|
  {
    if o == 0 then after[0] == tables[0]
    else SortLeaves(hash, RenamedLevel(t, u, maps, vocabMap, o), tables[o], u[o], after[o])
  }

  lemma FirstFits(hash: Gram -> nat, t: Trie, tables: Tables)
    requires TrieOk(t) && AllIndexed(hash, t, tables)
    ensures TablesFit([[(0, 0)]], [tables[0]])
  {
    assert Indexed(hash, t[0], tables[0]);
  }

  lemma LeftStep(hash: Gram -> nat, t: Trie, u: Trie, maps: seq<seq<nat>>, vocabMap: seq<nat>, tables: Tables,
                 after: Tables, o: nat, sorted: seq<Gram>, to: seq<nat>, left: Slots)
    requires 0 < o < |t| && |u| == o && Sorted(t, u, maps, vocabMap) && Sorted(t, u + [sorted], maps + [to], vocabMap)
    requires TablesLeft(hash, t, u, maps, vocabMap, tables, after) && TablesFit(u, after)
    requires SortLeaves(hash, RenamedLevel(t, u, maps, vocabMap, o), tables[o], sorted, left) && TableShape(left, |sorted|)
    ensures TablesLeft(hash, t, u + [sorted], maps + [to], vocabMap, tables, after + [left])
    ensures TablesFit(u + [sorted], after + [left])
  {
    hide Sorted, SortLeaves, TableShape;
    SortedSize(t, u, maps, vocabMap);
    var w, maps1, after1 := u + [sorted], maps + [to], after + [left];
    forall q | 0 <= q < |w|
      ensures LevelLeft(hash, t, w, maps1, vocabMap, tables, after1, q)
    {
      if q < o {
        assert LevelLeft(hash, t, u, maps, vocabMap, tables, after, q);
      }
      if q > 0 {
        SameLevel(t, u, w, maps, maps1, vocabMap, q);
      }
    }
  }

  lemma SortedSize(t: Trie, u: Trie, maps: seq<seq<nat>>, vocabMap: seq<nat>)
    requires Sorted(t, u, maps, vocabMap)
    ensures |u| == |maps| <= |t|
  {
  }

  lemma SameLevel(t: Trie, u: Trie, w: Trie, maps: seq<seq<nat>>, maps1: seq<seq<nat>>, vocabMap: seq<nat>, q: nat)
    requires Sorted(t, u, maps, vocabMap) && Sorted(t, w, maps1, vocabMap) && |maps| == |u| && maps <= maps1
    requires 0 < q < |t| && q <= |u| && q <= |w|
    ensures RenamedLevel(t, w, maps1, vocabMap, q) == RenamedLevel(t, u, maps, vocabMap, q)
  {
    hide Sorted;
  }

  /** u holds the first orders of t under new numbers: maps[o] renumbers order o, and every
      n-gram spells the renamed words. */
  ghost predicate Sorted(t: Trie, u: Trie, maps: seq<seq<nat>>, vocabMap: seq<nat>)
  {
    && TrieOk(t) && TrieOk(u) && |u| == |maps| <= |t| && InVocab(t, |vocabMap|) && InVocab(u, |vocabMap|)
    && forall o :: 0 <= o < |u| ==>
         && |u[o]| == |t[o]| && Permutation(maps[o], |t[o]|)
         && forall i :: 0 <= i < |t[o]| ==> RenamedAt(t, u, vocabMap, o, i, maps[o][i])
  }

  ghost predicate RenamedAt(t: Trie, u: Trie, vocabMap: seq<nat>, o: nat, i: nat, k: nat)
    requires TrieOk(t) && TrieOk(u) && InVocab(t, |vocabMap|) && o < |t| && o < |u| && i < |t[o]|
  {
    WordsInVocab(t, |vocabMap|, o, i);
    Spells(u, o, k, Renamed(Words(t, o, i), vocabMap))
  }

  lemma SortStart(t: Trie, vocabMap: seq<nat>)
    requires TrieOk(t) && InVocab(t, |vocabMap|)
    ensures Sorted(t, [[(0, 0)]], [[0]], vocabMap)
  {
    var u: Trie := [[(0, 0)]];
    assert 0 in [0];
    assert RenamedAt(t, u, vocabMap, 0, 0, 0) by {
      assert Words(t, 0, 0) == [] && Words(u, 0, 0) == [];
    }
    forall j | 0 <= j < 1
      ensures j in [0]
    {
    }
  }

  lemma LevelReady(t: Trie, u: Trie, maps: seq<seq<nat>>, vocabMap: seq<nat>, o: nat)
    requires 0 < o < |t| && o <= |u| && Sorted(t, u, maps, vocabMap)
    ensures Distinct(t[o]) && Permutation(maps[o - 1], |maps[o - 1]|) && |maps[o - 1]| == |t[o - 1]|
    ensures forall i :: 0 <= i < |t[o]| ==> 0 <= t[o][i].0 < |maps[o - 1]| && 0 <= t[o][i].1 < |vocabMap|
  {
    assert LevelOk(t[o], |t[o - 1]|);
  }

  lemma SortStep(t: Trie, u: Trie, maps: seq<seq<nat>>, vocabMap: seq<nat>, o: nat, sorted: seq<Gram>, to: seq<nat>)
    requires 0 < o < |t| && |u| == o && Sorted(t, u, maps, vocabMap)
    requires Permutation(vocabMap, |vocabMap|) && |sorted| == |t[o]| && Permutation(to, |t[o]|) && Distinct(sorted)
    requires |maps[o - 1]| == |t[o - 1]|
    requires forall i :: 0 <= i < |t[o]| ==> 0 <= t[o][i].0 < |maps[o - 1]| && 0 <= t[o][i].1 < |vocabMap|
    requires forall i :: 0 <= i < |t[o]| ==> sorted[to[i]] == Mapped(t[o][i], vocabMap, maps[o - 1])
    ensures Sorted(t, u + [sorted], maps + [to], vocabMap)
  {
    var w := u + [sorted];
    SortedLevelOk(t, u, o, sorted, to, vocabMap, maps[o - 1]);
    SortedInVocab(t, u, o, sorted, to, vocabMap, maps[o - 1]);
    forall q, i | 0 <= q < o && 0 <= i < |t[q]|
      ensures RenamedAt(t, w, vocabMap, q, i, maps[q][i])
    {
      assert RenamedAt(t, u, vocabMap, q, i, maps[q][i]);
      PrefixWords(u, w, q, maps[q][i]);
    }
    forall i | 0 <= i < |t[o]|
      ensures RenamedAt(t, w, vocabMap, o, i, to[i])
    {
      assert RenamedAt(t, u, vocabMap, o - 1, t[o][i].0, maps[o - 1][t[o][i].0]);
      GramRenamed(t, u, w, vocabMap, maps[o - 1], o, i, to[i]);
    }
  }

  lemma SortedInVocab(t: Trie, u: Trie, o: nat, sorted: seq<Gram>, to: seq<nat>, vocabMap: seq<nat>, histMap: seq<nat>)
    requires 0 < o < |t| && |u| == o && InVocab(u, |vocabMap|) && Permutation(vocabMap, |vocabMap|)
    requires |sorted| == |t[o]| && Permutation(to, |t[o]|)
    requires forall i :: 0 <= i < |t[o]| ==> 0 <= t[o][i].0 < |histMap| && 0 <= t[o][i].1 < |vocabMap|
    requires forall i :: 0 <= i < |t[o]| ==> sorted[to[i]] == Mapped(t[o][i], vocabMap, histMap)
    ensures InVocab(u + [sorted], |vocabMap|)
  {
    forall k | 0 <= k < |sorted|
      ensures 0 <= sorted[k].1 < |vocabMap|
    {
      assert k in to;
      var i :| 0 <= i < |to| && to[i] == k;
      assert sorted[to[i]] == Mapped(t[o][i], vocabMap, histMap);
    }
  }

  lemma {:induction false} PrefixWords(u: Trie, w: Trie, o: nat, i: nat)
    requires TrieOk(u) && TrieOk(w) && u <= w && o < |u| && i < |u[o]|
    ensures Words(w, o, i) == Words(u, o, i)
    decreases o
  {
    if o > 0 {
      WordsParts(u, o, i);
      PrefixWords(u, w, o - 1, u[o][i].0);
    }
  }

  lemma GramRenamed(t: Trie, u: Trie, w: Trie, vocabMap: seq<nat>, histMap: seq<nat>, o: nat, i: nat, k: nat)
    requires TrieOk(t) && TrieOk(u) && TrieOk(w) && InVocab(t, |vocabMap|) && 0 < o < |t| && |u| == o && u <= w && |w| == o + 1
    requires i < |t[o]| && 0 <= t[o][i].0 < |histMap| && |histMap| == |t[o - 1]| && 0 <= t[o][i].1 < |vocabMap|
    requires RenamedAt(t, u, vocabMap, o - 1, t[o][i].0, histMap[t[o][i].0])
    requires k < |w[o]| && w[o][k] == Mapped(t[o][i], vocabMap, histMap)
    ensures RenamedAt(t, w, vocabMap, o, i, k)
  {
    var h := t[o][i].0;
    WordsInVocab(t, |vocabMap|, o, i);
    WordsInVocab(t, |vocabMap|, o - 1, h);
    WordsParts(t, o, i);
    WordsParts(w, o, k);
    PrefixWords(u, w, o - 1, histMap[h]);
    var ws := Words(t, o, i);
    assert ws == Words(t, o - 1, h) + [t[o][i].1];
    assert Renamed(ws, vocabMap) == Renamed(Words(t, o - 1, h), vocabMap) + [vocabMap[t[o][i].1] as int];
  }

  lemma SortedAt(t: Trie, u: Trie, maps: seq<seq<nat>>, vocabMap: seq<nat>, o: nat, i: nat)
    requires Sorted(t, u, maps, vocabMap) && o < |u| && i < |t[o]|
    ensures |maps| == |u| && |maps[o]| == |t[o]| == |u[o]| && RenamedAt(t, u, vocabMap, o, i, maps[o][i])
  {
  }

  /** Every n-gram of the sorted order comes from one. */
  lemma SortedOnto(t: Trie, u: Trie, maps: seq<seq<nat>>, vocabMap: seq<nat>, o: nat, k: nat) returns (i: nat)
    requires Sorted(t, u, maps, vocabMap) && o < |u| && k < |u[o]|
    ensures i < |t[o]| == |maps[o]| && maps[o][i] == k && RenamedAt(t, u, vocabMap, o, i, k)
  {
    assert k in maps[o];
    i :| 0 <= i < |maps[o]| && maps[o][i] == k;
    assert RenamedAt(t, u, vocabMap, o, i, maps[o][i]);
  }

  /** Dropping the first word commutes with renaming. */
  lemma SameRenaming(t: Trie, vocabMap: seq<nat>, o: nat, i: nat, s: nat)
    requires TrieOk(t) && InVocab(t, |vocabMap|) && 0 < o < |t| && i < |t[o]| && s < |t[o - 1]|
    requires Words(t, o - 1, s) == Words(t, o, i)[1..]
    ensures AllBelow(Words(t, o, i), |vocabMap|) && AllBelow(Words(t, o - 1, s), |vocabMap|)
    ensures Renamed(Words(t, o - 1, s), vocabMap) == Renamed(Words(t, o, i), vocabMap)[1..]
  {
    WordsInVocab(t, |vocabMap|, o, i);
    WordsInVocab(t, |vocabMap|, o - 1, s);
  }

  /** The sorted trie still has all suffixes. */
  lemma SortedSuffixes(t: Trie, u: Trie, maps: seq<seq<nat>>, vocabMap: seq<nat>)
    requires |u| == |t| && Sorted(t, u, maps, vocabMap) && SuffixTrie(t)
    ensures SuffixTrie(u)
  {
    forall o, k | 1 < o < |u| && 0 <= k < |u[o]|
      ensures SuffixPresent(u, o, k)
    {
      SortedSuffix(t, u, maps, vocabMap, o, k);
    }
  }

  lemma SortedSuffix(t: Trie, u: Trie, maps: seq<seq<nat>>, vocabMap: seq<nat>, o: nat, k: nat)
    requires |u| == |t| && TrieOk(t) && TrieOk(u) && InVocab(t, |vocabMap|) && Sorted(t, u, maps, vocabMap) && SuffixTrie(t)
    requires 1 < o < |u| && k < |u[o]|
    ensures SuffixPresent(u, o, k)
  {
    hide Sorted, TrieOk, InVocab;
    var i := SortedOnto(t, u, maps, vocabMap, o, k);
    assert SuffixPresent(t, o, i);
    var s :| Spells(t, o - 1, s, Words(t, o, i)[1..]);
    SortedAt(t, u, maps, vocabMap, o - 1, s);
    SameRenaming(t, vocabMap, o, i, s);
    assert Spells(u, o - 1, maps[o - 1][s], Words(u, o, k)[1..]);
  }
}
