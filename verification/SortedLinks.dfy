/** When the suffix links of a freshly sorted model are right. */
module SortedLinks {
  import opened Distinctness
  import opened Sorting
  import opened Probing
  import opened HashIndex
  import opened StaleIndex
  import opened NgramVector
  import opened NgramTrie
  import opened BackoffLinks
  import opened NgramModel

  /** N-gram p of order o was renamed, in an order that was not sorted and so not reindexed. */
  ghost predicate Stranded(t: Trie, u: Trie, maps: seq<seq<nat>>, vocabMap: seq<nat>, o: nat, p: nat)
    requires Sorted(t, u, maps, vocabMap) && 0 < o < |u| && p < |u[o]|
  {
    !SomeStepUp(RenamedLevel(t, u, maps, vocabMap, o)) && u[o][p] != t[o][p]
  }

  /** Some n-gram of order o ends in n-gram p of the order below. */
  ghost predicate IsSuffix(u: Trie, o: nat, p: nat)
    requires TrieOk(u) && 0 < o < |u|
  {
    exists i :: 0 <= i < |u[o]| && LinkIs(u, o, i, p)
  }

  /** Every n-gram that a longer one ends in belongs to a sorted order or kept its name. */
  ghost predicate Harmless(t: Trie, u: Trie, maps: seq<seq<nat>>, vocabMap: seq<nat>)
    requires Sorted(t, u, maps, vocabMap)
  {
    forall o, p :: 1 < o < |u| && 0 <= p < |u[o - 1]| && IsSuffix(u, o, p) ==> !Stranded(t, u, maps, vocabMap, o - 1, p)
  }

  ghost predicate AllLinksRight(hash: Gram -> nat, u: Trie, after: Tables)
  {
    TrieOk(u) && TablesFit(u, after) && forall o :: 0 < o < |u| ==> LinksRight(u, o, Links(hash, u, after, o))
  }

  lemma LevelFits(hash: Gram -> nat, t: Trie, u: Trie, maps: seq<seq<nat>>, vocabMap: seq<nat>, tables: Tables, after: Tables)
    requires Sorted(t, u, maps, vocabMap) && AllIndexed(hash, t, tables)
    requires TablesLeft(hash, t, u, maps, vocabMap, tables, after)
    ensures TablesFit(u, after)
  {
    hide SomeStepUp, Stored;
    forall o | 0 <= o < |u|
      ensures TableShape(after[o], |u[o]|)
    {
      assert LevelLeft(hash, t, u, maps, vocabMap, tables, after, o);
      assert Indexed(hash, t[o], tables[o]);
    }
  }

  /** A lookup finds every n-gram that is not stranded. */
  lemma UnstrandedFound(hash: Gram -> nat, t: Trie, u: Trie, maps: seq<seq<nat>>, vocabMap: seq<nat>,
                         tables: Tables, after: Tables, o: nat, p: nat)
    requires Sorted(t, u, maps, vocabMap) && AllIndexed(hash, t, tables) && TablesFit(u, after)
    requires TablesLeft(hash, t, u, maps, vocabMap, tables, after)
    requires 0 < o < |u| && p < |u[o]| && !Stranded(t, u, maps, vocabMap, o, p)
    ensures Answer(hash, u[o], after[o], u[o][p]) == p
  {
    hide SomeStepUp, Answer, TableShape, Stored;
    assert LevelLeft(hash, t, u, maps, vocabMap, tables, after, o);
    assert Indexed(hash, t[o], tables[o]);
    assert LevelOk(u[o], |u[o - 1]|);
    if SomeStepUp(RenamedLevel(t, u, maps, vocabMap, o)) {
      AnswerRight(hash, u[o], after[o], u[o][p]);
    } else {
      UnmovedFound(hash, t[o], tables[o], u[o], p);
    }
  }

  lemma HarmlessLinks(hash: Gram -> nat, t: Trie, u: Trie, maps: seq<seq<nat>>, vocabMap: seq<nat>,
                      tables: Tables, after: Tables)
    requires Sorted(t, u, maps, vocabMap) && SuffixTrie(u) && AllIndexed(hash, t, tables)
    requires TablesLeft(hash, t, u, maps, vocabMap, tables, after) && Harmless(t, u, maps, vocabMap)
    ensures AllLinksRight(hash, u, after)
  {
    hide Answer, TableShape, SuffixTrie, Indexed, LevelLeft, SomeStepUp;
    LevelFits(hash, t, u, maps, vocabMap, tables, after);
    forall o | 1 < o < |u|
      ensures SuffixesAnswered(hash, u, after, o)
    {
      forall i, p | 0 <= i < |u[o]| && 0 <= p < |u[o - 1]| && LinkIs(u, o, i, p)
        ensures Answer(hash, u[o - 1], after[o - 1], u[o - 1][p]) == p
      {
        assert IsSuffix(u, o, p);
        UnstrandedFound(hash, t, u, maps, vocabMap, tables, after, o - 1, p);
      }
    }
    forall o | 0 < o < |u|
      ensures LinksRight(u, o, Links(hash, u, after, o))
    {
      AnsweredLinks(hash, u, after, o);
    }
  }

  // ----- the converse -----

  /** Some table for these keys. */
  ghost function TableFor(hash: Gram -> nat, keys: seq<Gram>): (slots: Slots)
    requires Distinct(keys)
    ensures Indexed(hash, keys, slots)
  {
    assert exists slots :: Indexed(hash, keys, slots) by {
      var slots := TableExists(hash, keys, NextPowerOf2(|keys|));
    }
    var slots :| Indexed(hash, keys, slots);
    slots
  }

  lemma LevelDistinct(t: Trie, o: nat)
    requires TrieOk(t) && o < |t|
    ensures Distinct(t[o])
  {
    assert o > 0 ==> LevelOk(t[o], |t[o - 1]|);
  }

  /** Tables for all orders, spread out for order o. */
  ghost function TablesFor(hash: Gram -> nat, t: Trie, o: nat): (tables: Tables)
    requires TrieOk(t) && o < |t| && hash == Spread(t[o])
    ensures AllIndexed(hash, t, tables) && tables[o] == SpreadSlots(|t[o]|)
  {
    LevelDistinct(t, o);
    SpreadIndexed(t[o]);
    seq(|t|, q requires 0 <= q < |t| =>
      LevelDistinct(t, q);
      if q == o then SpreadSlots(|t[o]|) else TableFor(hash, t[q]))
  }

  /** What the sort leaves of them. */
  ghost function TablesAfter(hash: Gram -> nat, t: Trie, u: Trie, maps: seq<seq<nat>>, vocabMap: seq<nat>, tables: Tables)
    : (after: Tables)
    requires Sorted(t, u, maps, vocabMap) && |tables| == |t|
    ensures |after| == |u|
    ensures forall o :: 0 < o < |u| ==>
              after[o] == if SomeStepUp(RenamedLevel(t, u, maps, vocabMap, o))
                          then (LevelDistinct(u, o); TableFor(hash, u[o])) else tables[o]
    ensures |u| > 0 ==> after[0] == tables[0]
  {
    seq(|u|, o requires 0 <= o < |u| =>
      if o > 0 && SomeStepUp(RenamedLevel(t, u, maps, vocabMap, o)) then (LevelDistinct(u, o); TableFor(hash, u[o]))
      else tables[o])
  }

  /** What order o holds after the sort, and where. */
  ghost predicate SortOutcome(t: Trie, u: Trie, maps: seq<seq<nat>>, vocabMap: seq<nat>)
    requires Sorted(t, u, maps, vocabMap)
  {
    forall o :: 0 < o < |u| ==> var renamed := RenamedLevel(t, u, maps, vocabMap, o);
      SomeStepUp(renamed) || u[o] == renamed
  }

  lemma AfterIsLeft(hash: Gram -> nat, t: Trie, u: Trie, maps: seq<seq<nat>>, vocabMap: seq<nat>, tables: Tables)
    requires Sorted(t, u, maps, vocabMap) && AllIndexed(hash, t, tables) && SortOutcome(t, u, maps, vocabMap)
    ensures TablesLeft(hash, t, u, maps, vocabMap, tables, TablesAfter(hash, t, u, maps, vocabMap, tables))
  {
    hide SomeStepUp, Indexed;
    var after := TablesAfter(hash, t, u, maps, vocabMap, tables);
    forall o | 0 <= o < |u|
      ensures LevelLeft(hash, t, u, maps, vocabMap, tables, after, o)
    {
      if o > 0 {
        LevelDistinct(u, o);
      }
    }
  }

  /** A stranded n-gram that a longer one ends in is lost under some hash function. */
  lemma StrandedLost(t: Trie, u: Trie, maps: seq<seq<nat>>, vocabMap: seq<nat>, o: nat, i: nat, p: nat)
    requires Sorted(t, u, maps, vocabMap) && SortOutcome(t, u, maps, vocabMap)
    requires 0 < o < |u| - 1 && i < |u[o + 1]| && p < |u[o]| && LinkIs(u, o + 1, i, p) && Stranded(t, u, maps, vocabMap, o, p)
    ensures var hash := Spread(t[o]); var tables := TablesFor(hash, t, o);
            !AllLinksRight(hash, u, TablesAfter(hash, t, u, maps, vocabMap, tables))
  {
    hide Answer, SomeStepUp, Indexed, TableShape, Spread, SpreadSlots;
    var hash := Spread(t[o]);
    var tables := TablesFor(hash, t, o);
    var after := TablesAfter(hash, t, u, maps, vocabMap, tables);
    LevelDistinct(t, o);
    LevelDistinct(u, o);
    MovedLost(t[o], u[o], p);
    if AllLinksRight(hash, u, after) {
      WordsParts(u, o + 1, i);
      LostLink(hash, u, after, o, i, p);
    }
  }

  lemma LostLink(hash: Gram -> nat, u: Trie, after: Tables, o: nat, i: nat, p: nat)
    requires TrieOk(u) && 0 < o < |u| - 1 && i < |u[o + 1]| && p < |u[o]| && LinkIs(u, o + 1, i, p)
    requires AllLinksRight(hash, u, after)
    ensures Answer(hash, u[o], after[o], u[o][p]) != -1
  {
    hide Answer, TableShape;
    var below := Links(hash, u, after, o);
    var h := u[o + 1][i].0;
    WordsParts(u, o + 1, i);
    WordsParts(u, o, p);
    assert LinksRight(u, o, below) && LinksRight(u, o + 1, Links(hash, u, after, o + 1));
    assert LinkIs(u, o, h, below[h]);
    assert LinkIs(u, o + 1, i, Links(hash, u, after, o + 1)[i]);
    var ws := Words(u, o + 1, i);
    assert ws[1..][..o - 1] == ws[..o][1..] && ws[1..][o - 1] == ws[o];
    SpellsOnce(u, o - 1, u[o][p].0, below[h]);
    assert u[o][p] == SuffixKey(u, o + 1, i, below);
  }

  /** Whatever the hash function and the tables, the links of a sorted model are right exactly
      when every n-gram that a longer one ends in belongs to a sorted order or kept its name. */
  lemma LinksRightExactly(t: Trie, u: Trie, maps: seq<seq<nat>>, vocabMap: seq<nat>)
    requires Sorted(t, u, maps, vocabMap) && SortOutcome(t, u, maps, vocabMap) && SuffixTrie(u)
    ensures (forall hash, tables, after :: AllIndexed(hash, t, tables)
                                        && TablesLeft(hash, t, u, maps, vocabMap, tables, after)
               ==> AllLinksRight(hash, u, after))
       <==> Harmless(t, u, maps, vocabMap)
  {
    hide Sorted, SortOutcome, SuffixTrie, AllIndexed, TablesLeft, AllLinksRight, Stranded, IsSuffix, LinkIs;
    if Harmless(t, u, maps, vocabMap) {
      forall hash, tables, after | AllIndexed(hash, t, tables) && TablesLeft(hash, t, u, maps, vocabMap, tables, after)
        ensures AllLinksRight(hash, u, after)
      {
        HarmlessLinks(hash, t, u, maps, vocabMap, tables, after);
      }
    } else {
      HarmfulLinks(t, u, maps, vocabMap);
    }
  }

  lemma HarmfulLinks(t: Trie, u: Trie, maps: seq<seq<nat>>, vocabMap: seq<nat>)
    requires Sorted(t, u, maps, vocabMap) && SortOutcome(t, u, maps, vocabMap) && !Harmless(t, u, maps, vocabMap)
    ensures exists hash, tables, after :: AllIndexed(hash, t, tables)
              && TablesLeft(hash, t, u, maps, vocabMap, tables, after) && !AllLinksRight(hash, u, after)
  {
    hide SortOutcome, AllIndexed, TablesLeft, AllLinksRight, LinkIs, RenamedAt, SomeStepUp;
    var q: nat, p: nat :| 1 < q < |u| && p < |u[q - 1]| && IsSuffix(u, q, p) && Stranded(t, u, maps, vocabMap, q - 1, p);
    var i :| 0 <= i < |u[q]| && LinkIs(u, q, i, p);
    var o := q - 1;
    StrandedLost(t, u, maps, vocabMap, o, i, p);
    var hash := Spread(t[o]);
    var tables := TablesFor(hash, t, o);
    AfterIsLeft(hash, t, u, maps, vocabMap, tables);
    var after := TablesAfter(hash, t, u, maps, vocabMap, tables);
    assert AllIndexed(hash, t, tables) && TablesLeft(hash, t, u, maps, vocabMap, tables, after) && !AllLinksRight(hash, u, after);
  }

  /** A sort that was carried out has such an outcome. */
  lemma OutcomeOf(hash: Gram -> nat, t: Trie, u: Trie, maps: seq<seq<nat>>, vocabMap: seq<nat>, tables: Tables, after: Tables)
    requires Sorted(t, u, maps, vocabMap) && TablesLeft(hash, t, u, maps, vocabMap, tables, after)
    ensures SortOutcome(t, u, maps, vocabMap)
  {
    hide SomeStepUp, Indexed, Sorted;
    SortedSize(t, u, maps, vocabMap);
    forall o | 0 < o < |u|
      ensures var renamed := RenamedLevel(t, u, maps, vocabMap, o); SomeStepUp(renamed) || u[o] == renamed
    {
      assert LevelLeft(hash, t, u, maps, vocabMap, tables, after, o);
    }
  }

  // ----- unigrams -----

  /** Unigrams are never stranded: the sentence marker comes first and keeps its number. */
  lemma UnigramsNotStranded(t: Trie, u: Trie, maps: seq<seq<nat>>, vocabMap: seq<nat>, p: nat)
    requires Sorted(t, u, maps, vocabMap) && SortOutcome(t, u, maps, vocabMap) && |u| > 1 && p < |u[1]|
    requires t[1] != [] && t[1][0] == (0, 0)
    requires Permutation(vocabMap, |vocabMap|) && |vocabMap| > 0 && vocabMap[0] == 0
    ensures !Stranded(t, u, maps, vocabMap, 1, p)
  {
    hide RenamedAt;
    var renamed := RenamedLevel(t, u, maps, vocabMap, 1);
    assert LevelOk(t[1], |t[0]|);
    assert maps[0] == [0];
    if |t[1]| > 1 {
      assert t[1][1] != t[1][0];
      assert vocabMap[t[1][1].1] != vocabMap[0];
      assert StepsUp(renamed, 1);
    } else {
      assert renamed == t[1];
    }
  }

  lemma ShortModelsHarmless(t: Trie, u: Trie, maps: seq<seq<nat>>, vocabMap: seq<nat>)
    requires Sorted(t, u, maps, vocabMap) && SortOutcome(t, u, maps, vocabMap) && 1 < |u| <= 3 && |t| > 1
    requires t[1] != [] && t[1][0] == (0, 0)
    requires Permutation(vocabMap, |vocabMap|) && |vocabMap| > 0 && vocabMap[0] == 0
    ensures Harmless(t, u, maps, vocabMap)
  {
    hide Stranded, IsSuffix, RenamedAt, SortOutcome, Permutation;
    forall o, p | 1 < o < |u| && 0 <= p < |u[o - 1]| && IsSuffix(u, o, p)
      ensures !Stranded(t, u, maps, vocabMap, o - 1, p)
    {
      UnigramsNotStranded(t, u, maps, vocabMap, p);
    }
  }
}
