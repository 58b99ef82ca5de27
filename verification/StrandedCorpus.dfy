/** A corpus whose suffix links can come out wrong: with the closed vocabulary b, a, c, the line
    "UNK b a" read into a model of order three. */
module StrandedCorpus {
  import opened Sorting
  import opened NgramVector
  import opened NgramTrie
  import opened BackoffLinks
  import opened CorpusCounts
  import opened CorpusScan
  import opened NgramModel
  import opened SortedLinks
  import opened CorpusModel

  const TOKENS: seq<int> := [INVALID, 1, 2]
  const LINE: seq<int> := [0, INVALID, 1, 2, 0]
  const VOCAB_MAP: seq<nat> := [0, 2, 1, 3]
  const COUNTS: seq<seq<nat>> := [[0], [1, 1, 1, 0], [1, 1], [1]]
  const MAPS: seq<seq<nat>> := [[0], VOCAB_MAP, [0, 1], [0]]

  /** In the order in which counting adds the n-grams. */
  const COUNTED: Trie := [[(0, 0)], [(0, 0), (0, 1), (0, 2), (0, 3)], [(1, 2), (2, 0)], [(0, 0)]]

  /** The words b and a trade places, and the bigrams come in descending order. */
  const SORTED: Trie := [[(0, 0)], [(0, 0), (0, 1), (0, 2), (0, 3)], [(2, 1), (1, 0)], [(0, 0)]]

  // ----- counting -----

  /** One if position i is the end of an occurrence. */
  function Occurs(i: int, o: nat, ws: seq<int>): nat
  {
    if (i == 2 && o == 1 && ws == [1]) || (i == 3 && o == 1 && ws == [2]) || (i == 4 && o == 1 && ws == [0])
       || (i == 3 && o == 2 && ws == [1, 2]) || (i == 4 && o == 2 && ws == [2, 0]) || (i == 4 && o == 3 && ws == [1, 2, 0])
    then 1 else 0
  }

  lemma Slices()
    ensures LINE[2..3] == [1] && LINE[3..4] == [2] && LINE[4..5] == [0]
    ensures LINE[2..4] == [1, 2] && LINE[3..5] == [2, 0] && LINE[2..5] == [1, 2, 0]
    ensures AllValid([1]) && AllValid([2]) && AllValid([0])
    ensures AllValid([1, 2]) && AllValid([2, 0]) && AllValid([1, 2, 0])
  {
  }

  lemma HitIs(i: nat, o: nat, ws: seq<int>)
    requires i < 5 && 0 < o <= 3
    ensures Hit(LINE, i, o, ws) == Occurs(i, o, ws)
  {
    if i >= 1 && o <= i + 1 {
      if i - o < 1 {
        assert LINE[i + 1 - o..i + 1][o - i] == INVALID;
      } else {
        hide AllValid;
        Slices();
        var k := i + 1 - o;
        assert (k == 2 && (i == 2 || i == 3 || i == 4)) || (k == 3 && (i == 3 || i == 4)) || (k == 4 && i == 4);
      }
    }
  }

  lemma CountIsSum(o: nat, ws: seq<int>)
    requires 0 < o <= 3
    ensures CorpusCount([LINE], 1, o, ws) == Occurs(2, o, ws) + Occurs(3, o, ws) + Occurs(4, o, ws)
  {
    hide Hit;
    HitIs(0, o, ws);
    HitIs(1, o, ws);
    HitIs(2, o, ws);
    HitIs(3, o, ws);
    HitIs(4, o, ws);
    assert LineCount(LINE, 1, o, ws) == LineCount(LINE, 0, o, ws) + Hit(LINE, 0, o, ws);
    assert LineCount(LINE, 2, o, ws) == LineCount(LINE, 1, o, ws) + Hit(LINE, 1, o, ws);
    assert LineCount(LINE, 3, o, ws) == LineCount(LINE, 2, o, ws) + Hit(LINE, 2, o, ws);
    assert LineCount(LINE, 4, o, ws) == LineCount(LINE, 3, o, ws) + Hit(LINE, 3, o, ws);
    assert LineCount(LINE, 5, o, ws) == LineCount(LINE, 4, o, ws) + Hit(LINE, 4, o, ws);
    assert CorpusCount([LINE], 0, o, ws) == 0;
  }

  lemma Tries()
    ensures TrieOk(COUNTED) && TrieOk(SORTED)
  {
    forall o | 0 < o < 4
      ensures LevelOk(COUNTED[o], |COUNTED[o - 1]|) && LevelOk(SORTED[o], |SORTED[o - 1]|)
    {
    }
  }

  lemma CountedWords()
    ensures TrieOk(COUNTED) && TrieOk(SORTED)
    ensures forall i :: 0 <= i < 4 ==> Words(COUNTED, 1, i) == [i] == Words(SORTED, 1, i)
    ensures Words(COUNTED, 2, 0) == [1, 2] && Words(COUNTED, 2, 1) == [2, 0] && Words(COUNTED, 3, 0) == [1, 2, 0]
    ensures Words(SORTED, 2, 0) == [2, 1] && Words(SORTED, 2, 1) == [1, 0] && Words(SORTED, 3, 0) == [2, 1, 0]
  {
    Tries();
    forall i | 0 <= i < 4
      ensures Words(COUNTED, 1, i) == [i] == Words(SORTED, 1, i)
    {
      assert Words(COUNTED, 0, 0) == [] == Words(SORTED, 0, 0);
    }
    assert Words(COUNTED, 1, 1) == [1] && Words(COUNTED, 1, 2) == [2];
    assert Words(SORTED, 1, 1) == [1] && Words(SORTED, 1, 2) == [2];
  }

  lemma LineIsCounted()
    ensures AllMarked([TOKENS]) == [LINE] && LinesCounted(COUNTED, COUNTS, [LINE], 1)
  {
    CountedWords();
    assert AllMarked([TOKENS])[0] == LINE;
    forall o, i | 1 < o < 4 && 0 <= i < |COUNTED[o]|
      ensures SuffixPresent(COUNTED, o, i)
    {
      assert Spells(COUNTED, 1, 2, [2]) && Spells(COUNTED, 1, 0, [0]) && Spells(COUNTED, 2, 1, [2, 0]);
    }
    LineTallies();
  }

  ghost predicate IsTally(f: Tally)
  {
    forall o: nat, ws :: 0 < o < 4 ==> f(o, ws) == Occurs(2, o, ws) + Occurs(3, o, ws) + Occurs(4, o, ws)
  }

  lemma LineTallies()
    requires TrieOk(COUNTED)
    ensures CountsOk(COUNTED, COUNTS) && Tallies(COUNTED, COUNTS, Counted([LINE], 1, [], 0, 0))
  {
    hide Present, CountIs, Occurs, CorpusCount, TrieOk;
    var f := Counted([LINE], 1, [], 0, 0);
    forall o: nat, ws | 0 < o < 4
      ensures f(o, ws) == Occurs(2, o, ws) + Occurs(3, o, ws) + Occurs(4, o, ws)
    {
      CountIsSum(o, ws);
      assert LineCount([], 0, o, ws) == 0;
    }
    TalliedPresent(f);
    PresentTallied(f);
  }

  lemma TalliedPresent(f: Tally)
    requires TrieOk(COUNTED) && IsTally(f)
    ensures forall o: nat, ws :: 0 < o < 4 && f(o, ws) > 0 ==> Present(COUNTED, o, ws)
  {
    hide TrieOk, Words;
    CountedWords();
    assert Spells(COUNTED, 1, 0, [0]) && Spells(COUNTED, 1, 1, [1]) && Spells(COUNTED, 1, 2, [2]);
    assert Spells(COUNTED, 2, 0, [1, 2]) && Spells(COUNTED, 2, 1, [2, 0]) && Spells(COUNTED, 3, 0, [1, 2, 0]);
  }

  lemma PresentTallied(f: Tally)
    requires TrieOk(COUNTED) && IsTally(f)
    ensures CountsOk(COUNTED, COUNTS)
    ensures forall o, i :: 0 < o < 4 && 0 <= i < |COUNTED[o]| ==> CountIs(COUNTED, COUNTS, f, o, i)
  {
    hide TrieOk, Words;
    CountedWords();
    forall o, i | 0 < o < 4 && 0 <= i < |COUNTED[o]|
      ensures COUNTS[o][i] == f(o, Words(COUNTED, o, i))
    {
      if o == 1 {
        assert Words(COUNTED, 1, i) == [i];
        assert [i][0] == i && [0][0] == 0 && [1][0] == 1 && [2][0] == 2;
      }
    }
  }

  // ----- sorting -----

  lemma Swaps()
    ensures Permutation(VOCAB_MAP, 4) && Permutation([0, 1], 2) && Permutation([0], 1)
    ensures InVocab(COUNTED, 4) && InVocab(SORTED, 4)
  {
    assert VOCAB_MAP[0] == 0 && VOCAB_MAP[1] == 2 && VOCAB_MAP[2] == 1 && VOCAB_MAP[3] == 3;
    assert [0, 1][0] == 0 && [0, 1][1] == 1 && [0][0] == 0;
  }

  lemma Renames(o: nat, i: nat)
    requires TrieOk(COUNTED) && TrieOk(SORTED) && InVocab(COUNTED, 4) && o < 4 && i < |COUNTED[o]|
    ensures |MAPS[o]| == |COUNTED[o]| && RenamedAt(COUNTED, SORTED, VOCAB_MAP, o, i, MAPS[o][i])
  {
    hide TrieOk, InVocab, Words;
    CountedWords();
    WordsInVocab(COUNTED, 4, o, i);
    if o == 0 {
      assert |Words(COUNTED, 0, 0)| == |Words(SORTED, 0, 0)| == 0;
    } else if o == 1 {
      assert Words(COUNTED, 1, i) == [i];
      assert Renamed([i], VOCAB_MAP) == [VOCAB_MAP[i] as int];
      assert 0 <= VOCAB_MAP[i] < 4;
    }
  }

  lemma SortedFromCounted()
    ensures Permutation(VOCAB_MAP, 4) && Sorted(COUNTED, SORTED, MAPS, VOCAB_MAP)
  {
    hide Permutation, RenamedAt, InVocab, TrieOk, Words;
    CountedWords();
    Swaps();
    forall o, i | 0 <= o < 4 && 0 <= i < |COUNTED[o]|
      ensures RenamedAt(COUNTED, SORTED, VOCAB_MAP, o, i, MAPS[o][i])
    {
      Renames(o, i);
    }
    forall o | 0 <= o < 4
      ensures |SORTED[o]| == |COUNTED[o]| && Permutation(MAPS[o], |COUNTED[o]|)
    {
    }
  }

  lemma SortSteps()
    requires Sorted(COUNTED, SORTED, MAPS, VOCAB_MAP)
    ensures SortOutcome(COUNTED, SORTED, MAPS, VOCAB_MAP)
    ensures RenamedLevel(COUNTED, SORTED, MAPS, VOCAB_MAP, 2) == SORTED[2] && !SomeStepUp(SORTED[2])
  {
    hide Sorted;
    var first := RenamedLevel(COUNTED, SORTED, MAPS, VOCAB_MAP, 1);
    assert first[0] == (0, 0) && first[1] == (0, 2);
    assert StepsUp(first, 1);
    assert RenamedLevel(COUNTED, SORTED, MAPS, VOCAB_MAP, 2) == SORTED[2];
    assert RenamedLevel(COUNTED, SORTED, MAPS, VOCAB_MAP, 3) == SORTED[3];
  }

  /** Loading this line can leave a wrong suffix link: the bigram "a </s>" is renamed in place,
      and under some hash function the trigram that ends in it does not find it. */
  lemma LinksCanFail()
    ensures AllMarked([TOKENS]) == [LINE] && LinesCounted(COUNTED, COUNTS, [LINE], 1)
    ensures Permutation(VOCAB_MAP, 4) && VOCAB_MAP[0] == 0
    ensures Sorted(COUNTED, SORTED, MAPS, VOCAB_MAP) && SortOutcome(COUNTED, SORTED, MAPS, VOCAB_MAP)
    ensures !LinksSafe(COUNTED, SORTED, MAPS, VOCAB_MAP)
    ensures exists hash, tables, after ::
              && AllIndexed(hash, COUNTED, tables)
              && TablesLeft(hash, COUNTED, SORTED, MAPS, VOCAB_MAP, tables, after)
              && !AllLinksRight(hash, SORTED, after)
  {
    hide LinesCounted, Permutation, RenamedAt, SortOutcome, AllIndexed, TablesLeft, AllLinksRight, SomeStepUp;
    LineIsCounted();
    SortedFromCounted();
    SortSteps();
    CountedWords();
    assert LinkIs(SORTED, 3, 0, 1);
    assert IsSuffix(SORTED, 3, 1);
    assert Stranded(COUNTED, SORTED, MAPS, VOCAB_MAP, 2, 1);
    HarmfulLinks(COUNTED, SORTED, MAPS, VOCAB_MAP);
  }
}
