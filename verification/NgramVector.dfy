/** The n-grams of one order: parallel word and history arrays with a hash index. */
module NgramVector {
  import opened Distinctness
  import opened Sorting
  import opened Probing
  import opened HashIndex
  import opened StaleIndex

  const INVALID: int := -1

  /** An n-gram is its history's index and its last word. */
  type Gram = (int, int)

  function Grams(hists: seq<int>, words: seq<int>, n: nat): (r: seq<Gram>)
    requires n <= |hists| && n <= |words|
    ensures |r| == n && forall i :: 0 <= i < n ==> r[i] == (hists[i], words[i])
  {
    seq(n, i requires 0 <= i < n => (hists[i], words[i]))
  }

  /** What the comparison used for sorting says. */
  predicate Less(a: Gram, b: Gram)
  {
    if a.0 == b.0 then a.1 < b.1 else a.0 < b.0
  }

  function Mapped(g: Gram, vocabMap: seq<int>, histMap: seq<int>): Gram
    requires 0 <= g.0 < |histMap| && 0 <= g.1 < |vocabMap|
  {
    (histMap[g.0], vocabMap[g.1])
  }

  function Larger(a: nat, b: nat): nat
  {
    if a > b then a else b
  }

  class NgramVector {
    const hash: Gram -> nat
    var length: nat
    var words: seq<int>
    var hists: seq<int>
    var indices: Slots

    /** Arrays and index belong together. */
    ghost predicate Valid()
      reads this
    {
      && |words| == |hists| && length <= |words|
      && |words| < |indices|
      && Indexed(hash, Keys(), indices)
    }

    /** The stored n-grams, in the order of their indices. */
    ghost function Keys(): seq<Gram>
      requires |words| == |hists| && length <= |words|
      reads this
    {
      Grams(hists, words, length)
    }

    constructor (hash: Gram -> nat)
      ensures Valid() && Keys() == [] && this.hash == hash
    {
      this.hash := hash;
      length, words, hists, indices := 0, [], [], [-1];
      new;
      NothingIndexed(hash, 1);
      assert seq(1, _ => -1) == indices;
      assert Keys() == [];
    }

    /** The index of an n-gram; INVALID exactly when it is not stored. */
    method Find(hist: int, word: int) returns (index: int)
      requires Valid()
      ensures index == INVALID <==> (hist, word) !in Keys()
      ensures index != INVALID ==> 0 <= index < length && Keys()[index] == (hist, word)
    {
      var pos, k := FindSlot(hash, Grams(hists, words, length), indices, (hist, word));
      StopDecides(hash, Keys(), indices, (hist, word), k);
      index := indices[pos];
    }

    /** Adds an n-gram unless it is there; indices of stored n-grams never change. */
    method Add(hist: int, word: int) returns (index: int, isNew: bool)
      requires Valid() && hist != INVALID && word != INVALID
      modifies this
      ensures Valid()
      ensures isNew <==> (hist, word) !in old(Keys())
      ensures Keys() == if isNew then old(Keys()) + [(hist, word)] else old(Keys())
      ensures 0 <= index < length && Keys()[index] == (hist, word)
    {
      var pos, k := FindSlot(hash, Grams(hists, words, length), indices, (hist, word));
      StopDecides(hash, Keys(), indices, (hist, word), k);
      isNew := indices[pos] == INVALID;
      if isNew {
        if length >= |words| {
          Reserve(Larger(65536, |words| * 2));
          pos, k := FindSlot(hash, Grams(hists, words, length), indices, (hist, word));
          StopDecides(hash, Keys(), indices, (hist, word), k);
        }
        InsertKeeps(hash, Keys(), indices, (hist, word), k);
        indices := indices[pos := length];
        ghost var before := Keys();
        words, hists := words[length := word], hists[length := hist];
        length := length + 1;
        assert Keys() == before + [(hist, word)];
      }
      index := indices[pos];
    }

    /** Makes room for capacity n-grams. */
    method Reserve(capacity: nat)
      requires Valid() && capacity >= length
      modifies this
      ensures Valid() && Keys() == old(Keys()) && |words| == capacity
    {
      if capacity != |words| {
        indices := Reindex(hash, Grams(hists, words, length), NextPowerOf2(capacity + capacity / 4));
        ghost var before := Keys();
        words, hists := Resize(words, capacity), Resize(hists, capacity);
        assert Keys() == before;
      }
    }

    /** Renames words and histories, then sorts the n-grams and rebuilds the index. When no
        renamed n-gram is followed by a larger one it stops after renaming, even though the
        n-grams then are in order only if there is just one. */
    method Sort(vocabMap: seq<int>, histMap: seq<int>) returns (changed: bool, ngramMap: seq<nat>)
      requires Valid() && length > 0
      requires forall i :: 0 <= i < length ==> 0 <= Keys()[i].0 < |histMap| && 0 <= Keys()[i].1 < |vocabMap|
      requires Distinct(AllMapped(Keys(), vocabMap, histMap))
      modifies this
      ensures length == old(length) && |words| == |hists| == |old(words)|
      ensures Permutation(ngramMap, length)
      ensures forall i :: 0 <= i < length ==> Keys()[ngramMap[i]] == Mapped(old(Keys()[i]), vocabMap, histMap)
      ensures forall i :: 0 <= i < length ==>
                Keys()[ngramMap[i]] == (histMap[old(Keys()[i]).0], vocabMap[old(Keys()[i]).1])
      ensures changed <==> SomeStepUp(old(AllMapped(Keys(), vocabMap, histMap)))
      ensures SortLeaves(hash, old(AllMapped(Keys(), vocabMap, histMap)), old(indices), Keys(), indices)
      ensures changed ==> Valid()
      ensures Ascending(Keys()) <==> changed || length == 1
      ensures !changed ==> ngramMap == Positions(length)
      ensures !changed && Keys() == old(Keys()) ==> Valid()
    {
      hide Ascending, SomeStepUp, SortedBy, ByGram, Indexed, Distinct, Less, Permutation;
      IndexedShape(hash, Keys(), indices);
      Rename(vocabMap, histMap);
      var keys := Grams(hists, words, length);
      var order;
      changed, order := SortIndices(keys);
      if !changed {
        ngramMap := order;
        OrderWithoutStep(keys);
        return;
      }
      OrderFits(order, |keys|);
      ngramMap := Invert(order);
      SortedGrams(keys, order, ngramMap);
      words := Arranged(words, order) + words[length..];
      hists := Arranged(hists, order) + hists[length..];
      assert Grams(hists, words, length) == Arranged(keys, order);
      indices := Reindex(hash, Grams(hists, words, length), |indices|);
    }

    /** The loop that renames in place. */
    method Rename(vocabMap: seq<int>, histMap: seq<int>)
      requires Valid()
      requires forall i :: 0 <= i < length ==> 0 <= Keys()[i].0 < |histMap| && 0 <= Keys()[i].1 < |vocabMap|
      modifies this`words, this`hists
      ensures |words| == |hists| == old(|words|)
      ensures Keys() == old(AllMapped(Keys(), vocabMap, histMap))
    {
      ghost var keys := Keys();
      for i := 0 to length
        invariant |words| == |hists| == old(|words|)
        invariant forall k :: 0 <= k < i ==> (hists[k], words[k]) == Mapped(keys[k], vocabMap, histMap)
        invariant forall k :: i <= k < length ==> (hists[k], words[k]) == keys[k]
      {
        words, hists := words[i := vocabMap[words[i]]], hists[i := histMap[hists[i]]];
      }
    }
  }

  // ----- sorting -----

  ghost predicate Ascending(keys: seq<Gram>)
  {
    forall i, j :: 0 <= i < j < |keys| ==> !Less(keys[j], keys[i])
  }

  /** Some n-gram is followed by a larger one: what the sort tests before it sorts. */
  predicate SomeStepUp(keys: seq<Gram>)
  {
    exists i :: 0 < i < |keys| && StepsUp(keys, i)
  }

  /** In ascending order histories do not decrease, nor do words under the same history. */
  lemma AscendingMeans(keys: seq<Gram>)
    ensures Ascending(keys) <==>
              forall i, j :: 0 <= i < j < |keys| ==>
                keys[i].0 < keys[j].0 || (keys[i].0 == keys[j].0 && keys[i].1 <= keys[j].1)
  {
    forall i, j | 0 <= i < j < |keys|
      ensures !Less(keys[j], keys[i]) <==> keys[i].0 < keys[j].0 || (keys[i].0 == keys[j].0 && keys[i].1 <= keys[j].1)
    {
    }
  }

  /** Nothing steps up exactly when every n-gram is at least the next one. */
  lemma StepUpMeans(keys: seq<Gram>)
    ensures SomeStepUp(keys) <==>
              exists i :: 0 < i < |keys| && Exceeds(keys[i], keys[i - 1])
  {
    if i :| 0 < i < |keys| && StepsUp(keys, i) {
      assert Exceeds(keys[i], keys[i - 1]);
    }
    if i :| 0 < i < |keys| && Exceeds(keys[i], keys[i - 1]) {
      assert StepsUp(keys, i);
    }
  }

  predicate Exceeds(a: Gram, b: Gram)
  {
    a.0 > b.0 || (a.0 == b.0 && a.1 > b.1)
  }

  predicate StepsUp(keys: seq<Gram>, i: nat)
    requires 0 < i < |keys|
  {
    Less(keys[i - 1], keys[i])
  }

  function GramAt(keys: seq<Gram>, i: nat): Gram
  {
    if i < |keys| then keys[i] else (0, 0)
  }

  function ByGram(keys: seq<Gram>): (nat, nat) -> bool
  {
    (i: nat, j: nat) => !Less(GramAt(keys, j), GramAt(keys, i))
  }

  lemma ByGramPreorder(keys: seq<Gram>)
    ensures TotalPreorder(ByGram(keys))
  {
  }

  lemma ArrangedAscends(keys: seq<Gram>, order: seq<nat>)
    requires Permutation(order, |keys|) && SortedBy(order, ByGram(keys))
    ensures Ascending(Arranged(keys, order))
  {
    forall i, j | 0 <= i < j < |keys|
      ensures !Less(keys[order[j]], keys[order[i]])
    {
      assert ByGram(keys)(order[i], order[j]);
    }
  }

  lemma ArrangedDistinct(keys: seq<Gram>, order: seq<nat>)
    requires Permutation(order, |keys|) && Distinct(keys)
    ensures Distinct(Arranged(keys, order))
  {
    forall i, j | 0 <= i < j < |keys|
      ensures keys[order[i]] != keys[order[j]]
    {
      assert order[i] != order[j];
    }
  }

  /** Without a step up different n-grams come in descending order. */
  lemma NoStepUp(keys: seq<Gram>)
    requires Distinct(keys) && !SomeStepUp(keys) && |keys| > 1
    ensures !Ascending(keys)
  {
    assert !StepsUp(keys, 1) && keys[0] != keys[1];
    assert Less(keys[1], keys[0]);
  }

  lemma OrderWithoutStep(keys: seq<Gram>)
    requires Distinct(keys) && !SomeStepUp(keys) && |keys| > 0
    ensures Ascending(keys) <==> |keys| == 1
  {
    if |keys| > 1 {
      NoStepUp(keys);
    }
  }

  lemma OrderFits(order: seq<nat>, n: nat)
    requires Permutation(order, n)
    ensures |order| == n && forall i :: 0 <= i < |order| ==> order[i] < n
  {
  }

  /** What arranging by the sorted positions achieves. */
  lemma SortedGrams(keys: seq<Gram>, order: seq<nat>, to: seq<nat>)
    requires Permutation(order, |keys|) && SortedBy(order, ByGram(keys)) && Inverse(order, to) && Distinct(keys)
    ensures |order| == |to| == |keys| && Permutation(to, |keys|) && forall i :: 0 <= i < |order| ==> order[i] < |keys|
    ensures Distinct(Arranged(keys, order)) && Ascending(Arranged(keys, order))
    ensures forall i :: 0 <= i < |keys| ==> to[i] < |keys| && Arranged(keys, order)[to[i]] == keys[i]
  {
    hide Ascending, SortedBy, ByGram, Distinct;
    ArrangedAscends(keys, order);
    ArrangedDistinct(keys, order);
    InversePermutes(order, to);
  }

  /** The sort of the index vector: it does nothing when no entry is followed by a larger one. */
  method SortIndices(keys: seq<Gram>) returns (changed: bool, order: seq<nat>)
    ensures changed <==> SomeStepUp(keys)
    ensures Permutation(order, |keys|)
    ensures changed ==> SortedBy(order, ByGram(keys))
    ensures !changed ==> order == Positions(|keys|)
  {
    order := Positions(|keys|);
    forall j | 0 <= j < |keys|
      ensures j in order
    {
      assert order[j] == j;
    }
    changed := false;
    var i := 0;
    while i + 1 < |keys|
      invariant !changed && forall j :: 0 < j <= i && j < |keys| ==> !StepsUp(keys, j)
    {
      if Less(keys[i], keys[i + 1]) {
        assert StepsUp(keys, i + 1);
        ByGramPreorder(keys);
        SortedPositionsPermute(|keys|, ByGram(keys));
        return true, SortedPositions(|keys|, ByGram(keys));
      }
      i := i + 1;
    }
  }

  /** The stored n-grams after renaming. */
  function AllMapped(keys: seq<Gram>, vocabMap: seq<int>, histMap: seq<int>): (r: seq<Gram>)
    requires forall i :: 0 <= i < |keys| ==> 0 <= keys[i].0 < |histMap| && 0 <= keys[i].1 < |vocabMap|
    ensures |r| == |keys| && forall i :: 0 <= i < |keys| ==> r[i] == Mapped(keys[i], vocabMap, histMap)
  {
    seq(|keys|, i requires 0 <= i < |keys| => Mapped(keys[i], vocabMap, histMap))
  }

  // ----- the index after a sort -----

  /** Keys and index after a sort of the renamed n-grams: either the index is rebuilt, or the
      n-grams stay where they are over the index of their old names. */
  ghost predicate SortLeaves(hash: Gram -> nat, renamed: seq<Gram>, slots: Slots, sorted: seq<Gram>, after: Slots)
  {
    |sorted| == |renamed| &&
    if SomeStepUp(renamed) then Indexed(hash, sorted, after) else sorted == renamed && after == slots
  }

  /** A sort keeps the index right, whatever the hash function and the table, exactly when some
      renamed n-gram is followed by a larger one or the renaming changes nothing. */
  lemma SortKeepsIndex(keys: seq<Gram>, renamed: seq<Gram>)
    requires Distinct(keys) && Distinct(renamed) && |renamed| == |keys|
    ensures (forall hash, slots, sorted, after :: Indexed(hash, keys, slots) && SortLeaves(hash, renamed, slots, sorted, after)
               ==> Indexed(hash, sorted, after))
       <==> SomeStepUp(renamed) || renamed == keys
  {
    hide Indexed, SomeStepUp, Distinct;
    if !SomeStepUp(renamed) {
      IndexOutlives(keys, renamed);
      forall hash: Gram -> nat, slots | Indexed(hash, keys, slots)
        ensures SortLeaves(hash, renamed, slots, renamed, slots)
      {
      }
    }
  }

  /** Renaming two words into each other's places can lose a stored n-gram. */
  lemma RenamingLosesGrams()
    ensures var keys, to := [(1, 2), (2, 0)], [0, 2, 1, 3]; var renamed := AllMapped(keys, to, to);
            && renamed == [(2, 1), (1, 0)] && !SomeStepUp(renamed)
            && exists hash, slots :: Indexed(hash, keys, slots) && Answer(hash, renamed, slots, (1, 0)) == INVALID
  {
    var keys, to := [(1, 2), (2, 0)], [0, 2, 1, 3];
    var renamed := AllMapped(keys, to, to);
    assert renamed == [(2, 1), (1, 0)];
    SpreadIndexed(keys);
    MovedLost(keys, renamed, 1);
  }

  /** The first n entries; new ones are zero. */
  function Resize(s: seq<int>, n: nat): (r: seq<int>)
    ensures |r| == n && forall i :: 0 <= i < n && i < |s| ==> r[i] == s[i]
  {
    seq(n, i requires 0 <= i < n => if i < |s| then s[i] else 0)
  }
}
