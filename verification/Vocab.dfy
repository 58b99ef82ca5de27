/** The vocabulary: distinct words with a hash index, and the sort that renumbers the index in
    place instead of rebuilding it. */
module Vocab {
  import opened Distinctness
  import opened Sorting
  import opened Probing
  import opened HashIndex

  const INVALID: int := -1
  const END_OF_SENTENCE: int := 0

  /** strcmp(a, b) < 0. */
  predicate StrLess(a: string, b: string)
  {
    b != [] && (a == [] || a[0] < b[0] || (a[0] == b[0] && StrLess(a[1..], b[1..])))
  }

  /** At the first difference the smaller string ends or has the smaller character. */
  lemma {:induction false} StrLessMeans(a: string, b: string)
    ensures StrLess(a, b) <==>
              exists k :: 0 <= k <= |a| && k < |b| && a[..k] == b[..k] && (k == |a| || a[k] < b[k])
  {
    if a != [] && b != [] && a[0] == b[0] {
      StrLessMeans(a[1..], b[1..]);
      if k :| 0 <= k <= |a[1..]| && k < |b[1..]| && a[1..][..k] == b[1..][..k] && (k == |a[1..]| || a[1..][k] < b[1..][k]) {
        assert a[..k + 1] == [a[0]] + a[1..][..k] && b[..k + 1] == [b[0]] + b[1..][..k];
      }
      if k :| 0 < k <= |a| && k < |b| && a[..k] == b[..k] && (k == |a| || a[k] < b[k]) {
        assert a[1..][..k - 1] == a[..k][1..] && b[1..][..k - 1] == b[..k][1..];
      }
    } else if b != [] && StrLess(a, b) {
      assert a[..0] == b[..0];
    }
    if k :| 0 <= k <= |a| && k < |b| && a[..k] == b[..k] && (k == |a| || a[k] < b[k]) {
      if k > 0 {
        assert a[0] == a[..k][0] == b[..k][0] == b[0];
      }
    }
  }

  lemma {:induction false} StrLessTrans(a: string, b: string, c: string)
    ensures StrLess(a, b) && StrLess(b, c) ==> StrLess(a, c)
  {
    if a != [] && b != [] && c != [] {
      StrLessTrans(a[1..], b[1..], c[1..]);
    }
  }

  lemma {:induction false} StrLessTotal(a: string, b: string)
    ensures StrLess(a, b) || StrLess(b, a) || a == b
    ensures !(StrLess(a, b) && StrLess(b, a))
    ensures StrLess(a, b) ==> a != b
  {
    if a != [] && b != [] {
      StrLessTotal(a[1..], b[1..]);
      assert a == [a[0]] + a[1..] && b == [b[0]] + b[1..];
    }
  }

  function WordAt(words: seq<string>, i: nat): string
  {
    if i < |words| then words[i] else ""
  }

  function ByWord(words: seq<string>): (nat, nat) -> bool
  {
    (i: nat, j: nat) => !StrLess(WordAt(words, j), WordAt(words, i))
  }

  lemma ByWordPreorder(words: seq<string>)
    ensures TotalPreorder(ByWord(words))
  {
    forall i: nat, j: nat
      ensures ByWord(words)(i, j) || ByWord(words)(j, i)
    {
      StrLessTotal(WordAt(words, i), WordAt(words, j));
    }
    forall i: nat, j: nat, k: nat | ByWord(words)(i, j) && ByWord(words)(j, k)
      ensures ByWord(words)(i, k)
    {
      var a, b, c := WordAt(words, i), WordAt(words, j), WordAt(words, k);
      StrLessTotal(a, b);
      StrLessTrans(c, a, b);
    }
  }

  ghost predicate Ascending(words: seq<string>)
  {
    forall i, j :: 0 <= i < j < |words| ==> !StrLess(words[j], words[i])
  }

  predicate StepsUp(words: seq<string>, i: nat)
    requires 0 < i < |words|
  {
    StrLess(words[i - 1], words[i])
  }

  /** What the sort tests before it sorts. */
  predicate SomeStepUp(words: seq<string>)
  {
    exists i :: 0 < i < |words| && StepsUp(words, i)
  }

  /** Without a step up different words come in descending order. */
  lemma NoStepUp(words: seq<string>)
    requires Distinct(words) && !SomeStepUp(words) && |words| > 0
    ensures Ascending(words) <==> |words| == 1
  {
    if |words| > 1 {
      assert !StepsUp(words, 1) && words[0] != words[1];
      StrLessTotal(words[0], words[1]);
    }
  }

  /** Positions 0 .. fixed stay, the others are sorted by their words, unless no word is
      followed by a larger one. */
  method SortTail(words: seq<string>, fixed: nat) returns (changed: bool, order: seq<nat>)
    requires fixed < |words|
    ensures changed <==> SomeStepUp(words[fixed..])
    ensures Permutation(order, |words|)
    ensures forall i :: 0 <= i < fixed ==> order[i] == i
    ensures changed ==> Ascending(Arranged(words, order)[fixed..])
    ensures !changed ==> order == Positions(|words|)
  {
    order := Positions(|words|);
    PositionsPermute(|words|);
    var tail := words[fixed..];
    var i := 0;
    while i + 1 < |tail|
      invariant forall j :: 0 < j <= i && j < |tail| ==> !StepsUp(tail, j)
    {
      if StrLess(tail[i], tail[i + 1]) {
        assert StepsUp(tail, i + 1);
        ByWordPreorder(tail);
        SortedPositionsPermute(|tail|, ByWord(tail));
        var sorted := SortedPositions(|tail|, ByWord(tail));
        order := TailOrder(sorted, fixed);
        TailAscends(words, fixed, sorted);
        return true, order;
      }
      i := i + 1;
    }
    changed := false;
  }

  lemma PositionsPermute(n: nat)
    ensures Permutation(Positions(n), n)
  {
    forall j | 0 <= j < n
      ensures j in Positions(n)
    {
      assert Positions(n)[j] == j;
    }
  }

  /** The first positions, then the sorted ones behind them. */
  function TailOrder(sorted: seq<nat>, fixed: nat): (r: seq<nat>)
    ensures |r| == fixed + |sorted|
    ensures forall i :: 0 <= i < fixed ==> r[i] == i
    ensures forall i :: 0 <= i < |sorted| ==> r[fixed + i] == fixed + sorted[i]
  {
    Positions(fixed) + seq(|sorted|, i requires 0 <= i < |sorted| => fixed + sorted[i])
  }

  lemma TailOrderPermutes(sorted: seq<nat>, fixed: nat)
    requires Permutation(sorted, |sorted|)
    ensures Permutation(TailOrder(sorted, fixed), fixed + |sorted|)
  {
    var order := TailOrder(sorted, fixed);
    forall i | 0 <= i < |order|
      ensures i < fixed ==> order[i] == i
      ensures i >= fixed ==> order[i] == fixed + sorted[i - fixed]
    {
      if i >= fixed {
        assert order[fixed + (i - fixed)] == fixed + sorted[i - fixed];
      }
    }
    forall j | 0 <= j < |order|
      ensures j in order
    {
      if j < fixed {
        assert order[j] == j;
      } else {
        assert j - fixed in sorted;
        var i :| 0 <= i < |sorted| && sorted[i] == j - fixed;
        assert order[fixed + i] == j;
      }
    }
  }

  lemma TailAscends(words: seq<string>, fixed: nat, sorted: seq<nat>)
    requires fixed < |words| && Permutation(sorted, |words| - fixed) && SortedBy(sorted, ByWord(words[fixed..]))
    ensures Permutation(TailOrder(sorted, fixed), |words|)
    ensures Ascending(Arranged(words, TailOrder(sorted, fixed))[fixed..])
  {
    hide StrLess;
    TailOrderPermutes(sorted, fixed);
    var order, tail := TailOrder(sorted, fixed), words[fixed..];
    var arranged := Arranged(words, order);
    forall i, j | 0 <= i < j < |sorted|
      ensures !StrLess(arranged[fixed..][j], arranged[fixed..][i])
    {
      assert ByWord(tail)(sorted[i], sorted[j]);
      assert arranged[fixed + i] == tail[sorted[i]] && arranged[fixed + j] == tail[sorted[j]];
    }
  }

  class Vocab {
    const hash: string -> nat
    var words: seq<string>
    var capacity: nat
    var indices: Slots
    var fixedVocab: bool
    var unkIndex: int

    ghost predicate Valid()
      reads this
    {
      && |words| <= capacity < |indices| && Indexed(hash, words, indices)
      && "<s>" !in words && |words| > 0 && words[0] == "</s>"
      && (unkIndex == INVALID || (unkIndex == 1 && |words| > 1 && words[1] == "<unk>"))
    }

    constructor (capacity: nat, hash: string -> nat)
      requires capacity > 0
      ensures Valid() && words == ["</s>"] && !fixedVocab && unkIndex == INVALID && this.hash == hash
    {
      this.hash, this.capacity := hash, capacity;
      fixedVocab, unkIndex, words := false, INVALID, [];
      indices := [-1];
      new;
      var table := Reindex(hash, words, NextPowerOf2(capacity + capacity / 4));
      var pos, k := FindSlot(hash, words, table, "</s>");
      StopDecides(hash, words, table, "</s>", k);
      InsertKeeps(hash, words, table, "</s>", k);
      indices := table[pos := 0];
      words := words + ["</s>"];
    }

    /** The index of a word, that of the unknown word when it is not stored. */
    method Find(word: string) returns (index: int)
      requires Valid()
      ensures word == "<s>" ==> index == END_OF_SENTENCE == 0 && words[0] == "</s>"
      ensures word != "<s>" && word in words ==> 0 <= index < |words| && words[index] == word
      ensures word != "<s>" && word !in words ==> index == unkIndex
    {
      if word == "<s>" {
        return END_OF_SENTENCE;
      }
      var pos, k := FindSlot(hash, words, indices, word);
      StopDecides(hash, words, indices, word, k);
      index := if indices[pos] == INVALID then unkIndex else indices[pos];
    }

    /** Adds a word to an open vocabulary; a fixed one answers with the unknown word. */
    method Add(word: string) returns (index: int)
      requires Valid()
      modifies this`words, this`indices, this`capacity
      ensures Valid()
      ensures words == if word == "<s>" || fixedVocab || word in old(words) then old(words) else old(words) + [word]
      ensures word == "<s>" ==> index == END_OF_SENTENCE == 0 && words[0] == "</s>"
      ensures word != "<s>" && word in words ==> 0 <= index < |words| && words[index] == word
      ensures word != "<s>" && word !in words ==> index == unkIndex
    {
      if word == "<s>" {
        return END_OF_SENTENCE;
      }
      var pos, k := FindSlot(hash, words, indices, word);
      StopDecides(hash, words, indices, word, k);
      if indices[pos] == INVALID && !fixedVocab {
        if |words| >= capacity {
          Reserve(if capacity * 2 > 65536 then capacity * 2 else 65536);
          pos, k := FindSlot(hash, words, indices, word);
          StopDecides(hash, words, indices, word, k);
        }
        InsertKeeps(hash, words, indices, word, k);
        indices := indices[pos := |words|];
        words := words + [word];
      }
      index := if indices[pos] == INVALID then unkIndex else indices[pos];
    }

    method Reserve(newCapacity: nat)
      requires Valid() && newCapacity >= |words|
      modifies this`indices, this`capacity
      ensures Valid() && capacity == newCapacity
    {
      if newCapacity != capacity {
        IndexedShape(hash, words, indices);
        indices := Reindex(hash, words, NextPowerOf2(newCapacity + newCapacity / 4));
        capacity := newCapacity;
      }
    }

    /** Sorts the words behind the fixed ones; every word keeps its probe chain, so Find stays
        right although the index is not rebuilt. */
    method Sort() returns (changed: bool, sortMap: seq<nat>)
      requires Valid() && |words| > (if unkIndex == INVALID then 1 else 2)
      modifies this`words, this`indices, this`capacity
      ensures Valid() && |words| == |old(words)| && Permutation(sortMap, |words|)
      ensures forall i :: 0 <= i < |words| ==> words[sortMap[i]] == old(words)[i]
      ensures var fixed := if unkIndex == INVALID then 1 else 2;
              && words[..fixed] == old(words)[..fixed]
              && (changed <==> SomeStepUp(old(words)[fixed..]))
              && (Ascending(words[fixed..]) <==> changed || |words| == fixed + 1)
      ensures !changed ==> words == old(words)
    {
      hide Ascending, SomeStepUp, Indexed, Distinct, StrLess, Permutation;
      var fixed := if unkIndex == INVALID then 1 else 2;
      IndexedShape(hash, words, indices);
      var order;
      changed, order := SortTail(words, fixed);
      if !changed {
        sortMap := order;
        TailWithoutStep(words, fixed);
        PermutationParts(order, |words|);
        return;
      }
      PermutationParts(order, |words|);
      sortMap := Invert(order);
      SortedWords(hash, words, indices, order, sortMap);
      ghost var before := words;
      words := Arranged(words, order);
      indices := Renumber(indices, sortMap);
      capacity := |words|;
      assert words[..fixed] == before[..fixed];
    }
  }

  lemma PermutationParts(order: seq<nat>, n: nat)
    requires Permutation(order, n)
    ensures |order| == n && forall i :: 0 <= i < n ==> order[i] < n
  {
  }

  lemma TailWithoutStep(words: seq<string>, fixed: nat)
    requires fixed < |words| && Distinct(words) && !SomeStepUp(words[fixed..])
    ensures Ascending(words[fixed..]) <==> |words| == fixed + 1
  {
    hide SomeStepUp, Ascending;
    assert Distinct(words[fixed..]);
    NoStepUp(words[fixed..]);
  }

  lemma SortedWords(hash: string -> nat, words: seq<string>, slots: Slots, order: seq<nat>, to: seq<nat>)
    requires Indexed(hash, words, slots) && Permutation(order, |words|) && Inverse(order, to)
    ensures |order| == |to| == |words| && Permutation(to, |words|) && SlotsWithin(slots, |to|)
    ensures forall i :: 0 <= i < |words| ==> order[i] < |words| && to[i] < |words| && Arranged(words, order)[to[i]] == words[i]
    ensures Indexed(hash, Arranged(words, order), Renumber(slots, to))
    ensures "<s>" in Arranged(words, order) ==> "<s>" in words
  {
    hide Indexed, Distinct;
    InversePermutes(order, to);
    IndexedWithin(hash, words, slots);
    RenumberKeeps(hash, words, slots, to, Arranged(words, order));
  }

  lemma IndexedWithin(hash: string -> nat, words: seq<string>, slots: Slots)
    requires Indexed(hash, words, slots)
    ensures SlotsWithin(slots, |words|)
  {
  }
}
