/** Loading a corpus, merging models and spelling n-grams out. */
module CorpusModel {
  import opened Distinctness
  import opened Sorting
  import opened Probing
  import opened HashIndex
  import opened StaleIndex
  import opened NgramVector
  import opened NgramTrie
  import opened BackoffLinks
  import opened CorpusCounts
  import opened CorpusScan
  import opened NgramModel
  import opened SortedLinks

  // ----- moving data along a sort map -----

  /** Scatters data along the map; entries the map does not reach get the default. */
  method ApplySort<T>(ngramMap: seq<nat>, data: seq<T>, length: nat, def: T) returns (moved: seq<T>)
    requires |ngramMap| <= |data| && Distinct(ngramMap)
    requires forall i :: 0 <= i < |ngramMap| ==> ngramMap[i] < (if length == 0 then |ngramMap| else length)
    ensures |moved| == if length == 0 then |ngramMap| else length
    ensures forall i :: 0 <= i < |ngramMap| ==> moved[ngramMap[i]] == data[i]
    ensures forall k :: 0 <= k < |moved| && k !in ngramMap ==> moved[k] == def
  {
    var n := if length == 0 then |ngramMap| else length;
    moved := seq(n, _ => def);
    for i := 0 to |ngramMap|
      invariant |moved| == n
      invariant forall k :: 0 <= k < i ==> moved[ngramMap[k]] == data[k]
      invariant forall k :: 0 <= k < n && k !in ngramMap ==> moved[k] == def
    {
      moved := moved[ngramMap[i] := data[i]];
    }
  }

  // ----- the rest of the vocabulary -----

  /** The first i words of the vocabulary have been added. */
  ghost predicate VocabularyTo(t: Trie, counts: seq<seq<nat>>, lines: seq<seq<int>>, v: nat, i: nat)
  {
    && |t| > 1 && LinesCounted(t, counts, lines, |lines|) && WordsBelow(t, v)
    && (forall w :: 0 <= w < i ==> (0, w) in t[1])
    && (i > 0 || t[1] != [] ==> MarkerFirst(t))
  }

  lemma VocabularyStep(t: Trie, counts: seq<seq<nat>>, lines: seq<seq<int>>, v: nat, i: nat)
    requires VocabularyTo(t, counts, lines, v, i) && i < v
    ensures |counts| == |t|
    ensures var u := t[1 := Added(t[1], (0, i))];
            VocabularyTo(u, counts[1 := Grown(counts[1], |u[1]|)], lines, v, i + 1)
  {
    hide Tallies, SuffixTrie, CountsOk, Counted, MarkerFirst;
    AddedTrie(t, 1, (0, i));
    AddedTallies(t, counts, Counted(lines, |lines|, [], 0, 0), 1, (0, i));
    SuffixesStay(t, 1, (0, i));
    CountsFit(t, counts);
    MarkerAdded(t, i);
  }

  /** Adds the words of the vocabulary that the corpus does not have, uncounted. */
  method AddVocabulary(t0: Trie, counts0: seq<seq<nat>>, v: nat, ghost lines: seq<seq<int>>)
    returns (t: Trie, counts: seq<seq<nat>>)
    requires |t0| > 1 && LinesCounted(t0, counts0, lines, |lines|) && WordsBelow(t0, v)
    requires t0[1] != [] ==> MarkerFirst(t0)
    ensures |t| == |t0| && LinesCounted(t, counts, lines, |lines|) && WordsBelow(t, v) && |t[1]| == v
    ensures v > 0 ==> MarkerFirst(t)
  {
    hide Tallies, SuffixTrie, CountsOk, Counted, MarkerFirst, WordsBelow;
    t, counts := t0, counts0;
    UnigramBound(t, v);
    if |t[1]| != v {
      for i := 0 to v
        invariant |t| == |t0| && VocabularyTo(t, counts, lines, v, i)
      {
        VocabularyStep(t, counts, lines, v, i);
        t := t[1 := Added(t[1], (0, i))];
        counts := counts[1 := Grown(counts[1], |t[1]|)];
      }
      UnigramBound(t, v);
      AllUnigrams(t, v);
    }
  }

  lemma MarkerAdded(t: Trie, i: nat)
    requires |t| > 1 && (i > 0 || t[1] != [] ==> MarkerFirst(t))
    ensures MarkerFirst(t[1 := Added(t[1], (0, i))])
  {
  }

  lemma CountsFit(t: Trie, counts: seq<seq<nat>>)
    requires CountsOk(t, counts) && |t| > 1
    ensures |counts| == |t| && |counts[1]| == |t[1]|
  {
  }

  function Singles(v: nat): (s: seq<Gram>)
    ensures |s| == v && forall w :: 0 <= w < v ==> s[w] == (0, w)
  {
    seq(v, w requires 0 <= w < v => (0, w))
  }

  lemma UnigramBound(t: Trie, v: nat)
    requires TrieOk(t) && |t| > 1 && WordsBelow(t, v)
    ensures |t[1]| <= v
  {
    assert LevelOk(t[1], |t[0]|);
    if |t[1]| > v {
      forall i | 0 <= i < |t[1]|
        ensures t[1][i] in Singles(v)
      {
        assert t[1][i] == Singles(v)[t[1][i].1];
      }
      var i := Pigeonhole(t[1], Singles(v));
    }
  }

  lemma AllUnigrams(t: Trie, v: nat)
    requires TrieOk(t) && |t| > 1 && forall w :: 0 <= w < v ==> (0, w) in t[1]
    ensures |t[1]| >= v
  {
    var singles := Singles(v);
    forall g | g in Elements(singles)
      ensures g in Elements(t[1])
    {
      var w :| 0 <= w < v && singles[w] == g;
      assert (0, w) in t[1];
    }
    ElementsSize(singles);
    ElementsSize(t[1]);
    SubsetSize(Elements(singles), Elements(t[1]));
  }

  // ----- what loading a corpus yields -----

  /** Count k of order o is how often its words, under their old numbers, occur in the lines. */
  ghost predicate CountedAs(t: Trie, counts: seq<seq<nat>>, maps: seq<seq<nat>>, lines: seq<seq<int>>, o: nat, i: nat)
    requires TrieOk(t) && o < |t| && i < |t[o]|
  {
    && o < |counts| && o < |maps| && i < |maps[o]| && maps[o][i] < |counts[o]|
    && counts[o][maps[o][i]] == CorpusCount(lines, |lines|, o, Words(t, o, i))
  }

  ghost predicate AllCounted(t: Trie, counts: seq<seq<nat>>, maps: seq<seq<nat>>, lines: seq<seq<int>>)
    requires TrieOk(t)
  {
    forall o, i :: 0 < o < |t| && 0 <= i < |t[o]| ==> CountedAs(t, counts, maps, lines, o, i)
  }

  /** Whatever occurs in the lines is in the trie. */
  ghost predicate AllPresent(t: Trie, lines: seq<seq<int>>)
    requires TrieOk(t)
  {
    forall o: nat, ws :: 0 < o < |t| && CorpusCount(lines, |lines|, o, ws) > 0 ==> Present(t, o, ws)
  }

  ghost predicate Scattered(to: seq<nat>, before: seq<nat>, after: seq<nat>)
  {
    |to| == |before| == |after| && forall i :: 0 <= i < |to| ==> to[i] < |after| && after[to[i]] == before[i]
  }

  /** Moves the counts of every order along its map. */
  method SortCounts(t: Trie, counts: seq<seq<nat>>, maps: seq<seq<nat>>) returns (moved: seq<seq<nat>>)
    requires CountsOk(t, counts) && |maps| == |t| && forall o :: 0 <= o < |t| ==> Permutation(maps[o], |t[o]|)
    ensures |moved| == |t| && forall o :: 0 <= o < |t| ==> Scattered(maps[o], counts[o], moved[o])
  {
    moved := [];
    for o := 0 to |t|
      invariant |moved| == o && forall q :: 0 <= q < o ==> Scattered(maps[q], counts[q], moved[q])
    {
      var level := ApplySort(maps[o], counts[o], 0, 0);
      moved := moved + [level];
    }
  }

  /** An index for each order: the table its n-grams were added to. */
  method IndexAll(hash: Gram -> nat, t: Trie) returns (tables: Tables)
    requires TrieOk(t)
    ensures AllIndexed(hash, t, tables)
  {
    hide Indexed;
    tables := [];
    for o := 0 to |t|
      invariant |tables| == o && forall q :: 0 <= q < o ==> Indexed(hash, t[q], tables[q])
    {
      LevelDistinct(t, o);
      var slots := Reindex(hash, t[o], NextPowerOf2(|t[o]|));
      tables := tables + [slots];
    }
  }

  /** Whatever the tables, the links of this loaded corpus come out right. */
  ghost predicate LinksSafe(t: Trie, u: Trie, maps: seq<seq<nat>>, vocabMap: seq<nat>)
  {
    Sorted(t, u, maps, vocabMap) && Harmless(t, u, maps, vocabMap)
  }

  /** A corpus loaded into a new model: the n-grams of its lines, their counts, sorted under
      the vocabulary's renaming, with the suffix links the indices answer. The links are right
      when no n-gram is stranded, and always up to order two. */
  method LoadCorpus(hash: Gram -> nat, order: nat, tokens: seq<seq<int>>, v: nat, vocabMap: seq<nat>)
    returns (u: Trie, counts: seq<seq<nat>>, links: seq<seq<int>>, t: Trie, maps: seq<seq<nat>>, after: Tables)
    requires order > 0 && v > 0 && Permutation(vocabMap, v) && vocabMap[0] == 0
    requires forall n :: 0 <= n < |tokens| ==> LineBelow(tokens[n], v)
    ensures |u| == |t| == order + 1 && Sorted(t, u, maps, vocabMap) && SuffixTrie(t) && SuffixTrie(u) && |u[1]| == v
    ensures SortOutcome(t, u, maps, vocabMap)
    ensures CountsOk(u, counts)
    ensures AllCounted(t, counts, maps, AllMarked(tokens)) && AllPresent(t, AllMarked(tokens))
    ensures TablesFit(u, after) && |links| == |u| && forall o :: 0 <= o < |u| ==> links[o] == Links(hash, u, after, o)
    ensures LinksSafe(t, u, maps, vocabMap) ==> forall o :: 0 < o < |u| ==> LinksRight(u, o, links[o])
    ensures order <= 2 ==> LinksSafe(t, u, maps, vocabMap)
  {
    hide Tallies, SuffixTrie, LevelOk, LinksRight, RenamedAt, Permutation, InVocab, WordsBelow, AllCounted, AllPresent;
    hide Indexed, TableShape, Answer, Harmless, SomeStepUp, SortOutcome, TablesLeft, MarkerFirst;
    ghost var lines := AllMarked(tokens);
    MarkedBelow(tokens, v);
    var grams, tally := CountLines(order, AllMarked(tokens), v);
    grams, tally := AddVocabulary(grams, tally, v, lines);
    BelowInVocab(grams, v);
    PermutationSize(vocabMap, v);
    var tables := IndexAll(hash, grams);
    var to, left;
    u, to, left, links := SortModel(hash, grams, tables, vocabMap);
    t, maps, after := grams, to, left;
    counts := SortCounts(grams, tally, to);
    SortedSuffixes(t, u, maps, vocabMap);
    FinalCounts(t, u, tally, counts, maps, vocabMap, lines);
    OutcomeOf(hash, t, u, maps, vocabMap, tables, after);
    LinksOutcome(hash, t, u, maps, vocabMap, tables, after);
  }

  lemma LinksOutcome(hash: Gram -> nat, t: Trie, u: Trie, maps: seq<seq<nat>>, vocabMap: seq<nat>, tables: Tables, after: Tables)
    requires Sorted(t, u, maps, vocabMap) && SuffixTrie(u) && AllIndexed(hash, t, tables) && |u| == |t| > 1
    requires TablesLeft(hash, t, u, maps, vocabMap, tables, after) && SortOutcome(t, u, maps, vocabMap)
    requires MarkerFirst(t) && Permutation(vocabMap, |vocabMap|) && |vocabMap| > 0 && vocabMap[0] == 0
    ensures LinksSafe(t, u, maps, vocabMap) ==> AllLinksRight(hash, u, after)
    ensures |u| <= 3 ==> LinksSafe(t, u, maps, vocabMap)
  {
    hide Sorted, SuffixTrie, AllIndexed, TablesLeft, SortOutcome, Permutation, LinksSafe, Harmless, AllLinksRight;
    if |u| <= 3 {
      ShortModelsHarmless(t, u, maps, vocabMap);
      SafeWhen(t, u, maps, vocabMap);
    }
    if LinksSafe(t, u, maps, vocabMap) {
      SafeWhen(t, u, maps, vocabMap);
      HarmlessLinks(hash, t, u, maps, vocabMap, tables, after);
    }
  }

  lemma SafeWhen(t: Trie, u: Trie, maps: seq<seq<nat>>, vocabMap: seq<nat>)
    requires Sorted(t, u, maps, vocabMap)
    ensures LinksSafe(t, u, maps, vocabMap) <==> Harmless(t, u, maps, vocabMap)
  {
  }

  lemma PermutationSize(p: seq<nat>, n: nat)
    requires Permutation(p, n)
    ensures |p| == n
  {
  }

  lemma FinalCounts(t: Trie, u: Trie, tally: seq<seq<nat>>, counts: seq<seq<nat>>, maps: seq<seq<nat>>, vocabMap: seq<nat>,
                    lines: seq<seq<int>>)
    requires LinesCounted(t, tally, lines, |lines|) && |u| == |t| && Sorted(t, u, maps, vocabMap)
    requires |counts| == |t| && forall o :: 0 <= o < |t| ==> Scattered(maps[o], tally[o], counts[o])
    ensures CountsOk(u, counts)
    ensures AllCounted(t, counts, maps, lines) && AllPresent(t, lines)
  {
    hide SuffixTrie, RenamedAt;
    forall o, i | 0 < o < |t| && 0 <= i < |t[o]|
      ensures CountedAs(t, counts, maps, lines, o, i)
    {
      assert CountIs(t, tally, Counted(lines, |lines|, [], 0, 0), o, i);
      assert LineCount([], 0, o, Words(t, o, i)) == 0;
    }
    forall o: nat, ws | 0 < o < |t| && CorpusCount(lines, |lines|, o, ws) > 0
      ensures Present(t, o, ws)
    {
      assert Counted(lines, |lines|, [], 0, 0)(o, ws) > 0;
    }
  }

  function AllMarked(tokens: seq<seq<int>>): (lines: seq<seq<int>>)
    ensures |lines| == |tokens| && forall n :: 0 <= n < |tokens| ==> lines[n] == Marked(tokens[n])
  {
    seq(|tokens|, n requires 0 <= n < |tokens| => Marked(tokens[n]))
  }

  lemma MarkedBelow(tokens: seq<seq<int>>, v: nat)
    requires v > 0 && forall n :: 0 <= n < |tokens| ==> LineBelow(tokens[n], v)
    ensures forall n :: 0 <= n < |tokens| ==>
              |AllMarked(tokens)[n]| > 1 && AllMarked(tokens)[n][0] == 0 && LineBelow(AllMarked(tokens)[n], v)
  {
  }

  lemma BelowInVocab(t: Trie, v: nat)
    requires WordsBelow(t, v)
    ensures InVocab(t, v)
  {
  }
}
