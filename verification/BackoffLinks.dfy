/** The suffix links of a model, computed by looking suffixes up in the hash indices. */
module BackoffLinks {
  import opened HashIndex
  import opened StaleIndex
  import opened NgramVector
  import opened NgramTrie

  /** The index of every order. */
  type Tables = seq<Slots>

  ghost predicate TablesFit(t: Trie, tables: Tables)
  {
    |tables| == |t| && forall o :: 0 <= o < |t| ==> TableShape(tables[o], |t[o]|)
  }

  ghost predicate AllIndexed(hash: Gram -> nat, t: Trie, tables: Tables)
  {
    |tables| == |t| && forall o :: 0 <= o < |t| ==> Indexed(hash, t[o], tables[o])
  }

  /** Link i of order o leads to the n-gram without its first word. */
  ghost predicate LinkIs(t: Trie, o: nat, i: nat, link: int)
    requires TrieOk(t) && 0 < o < |t| && i < |t[o]|
  {
    Spells(t, o - 1, link, Words(t, o, i)[1..])
  }

  ghost predicate LinksRight(t: Trie, o: nat, links: seq<int>)
    requires TrieOk(t) && 0 < o < |t|
  {
    |links| == |t[o]| && forall i :: 0 <= i < |links| ==> LinkIs(t, o, i, links[i])
  }

  /** The suffix sits under the suffix of the history and the same word. */
  lemma LinkFound(t: Trie, o: nat, i: nat, link: int) returns (p: nat)
    requires TrieOk(t) && SuffixTrie(t) && 1 < o < |t| && i < |t[o]| && 0 <= t[o][i].0 < |t[o - 1]|
    requires LinkIs(t, o - 1, t[o][i].0, link)
    ensures p < |t[o - 1]| && t[o - 1][p] == (link, t[o][i].1) && LinkIs(t, o, i, p)
  {
    var ws := Words(t, o, i);
    WordsParts(t, o, i);
    assert SuffixPresent(t, o, i);
    var k :| Spells(t, o - 1, k, ws[1..]);
    WordsParts(t, o - 1, k);
    assert ws[1..][..o - 2] == Words(t, o - 1, t[o][i].0)[1..];
    SpellsOnce(t, o - 2, t[o - 1][k].0, link);
    p := k;
  }

  lemma UnigramLink(t: Trie, i: nat)
    requires TrieOk(t) && 1 < |t| && i < |t[1]|
    ensures LinkIs(t, 1, i, 0)
  {
    assert Words(t, 1, i)[1..] == [];
  }

  // ----- what the lookups answer -----

  /** What is looked up for n-gram i: its last word under the link of its history. */
  ghost function SuffixKey(t: Trie, o: nat, i: nat, below: seq<int>): Gram
    requires TrieOk(t) && 1 < o < |t| && i < |t[o]| && |below| == |t[o - 1]|
  {
    assert LevelOk(t[o], |t[o - 1]|);
    (below[t[o][i].0], t[o][i].1)
  }

  /** The links of order o as the indices answer, rightly or not. */
  ghost function Links(hash: Gram -> nat, t: Trie, tables: Tables, o: nat): (links: seq<int>)
    requires TrieOk(t) && TablesFit(t, tables) && o < |t|
    ensures |links| == |t[o]|
    decreases o
  {
    if o <= 1 then seq(|t[o]|, _ => 0)
    else
      var below := Links(hash, t, tables, o - 1);
      seq(|t[o]|, i requires 0 <= i < |t[o]| => Answer(hash, t[o - 1], tables[o - 1], SuffixKey(t, o, i, below)))
  }

  /** Unigrams link to the empty n-gram; longer n-grams are looked up under the link of their
      history. */
  method ComputeBackoffs(hash: Gram -> nat, t: Trie, tables: Tables) returns (links: seq<seq<int>>)
    requires TrieOk(t) && TablesFit(t, tables)
    ensures |links| == |t| && forall o :: 0 <= o < |t| ==> links[o] == Links(hash, t, tables, o)
  {
    hide Answer, TableShape;
    links := [];
    for o := 0 to |t|
      invariant |links| == o && forall q :: 0 <= q < o ==> links[q] == Links(hash, t, tables, q)
    {
      if o <= 1 {
        links := links + [seq(|t[o]|, _ => 0)];
      } else {
        var level := LinkLevel(hash, t, tables, o, links[o - 1]);
        links := links + [level];
      }
    }
  }

  method LinkLevel(hash: Gram -> nat, t: Trie, tables: Tables, o: nat, below: seq<int>) returns (links: seq<int>)
    requires TrieOk(t) && TablesFit(t, tables) && 1 < o < |t| && below == Links(hash, t, tables, o - 1)
    ensures links == Links(hash, t, tables, o)
  {
    hide Answer, TableShape;
    links := [];
    for i := 0 to |t[o]|
      invariant |links| == i && forall k :: 0 <= k < i ==> links[k] == Links(hash, t, tables, o)[k]
    {
      WordsParts(t, o, i);
      var link := Find(hash, t[o - 1], tables[o - 1], (below[t[o][i].0], t[o][i].1));
      links := links + [link];
    }
  }

  /** A lookup in one order. */
  method Find(hash: Gram -> nat, keys: seq<Gram>, slots: Slots, g: Gram) returns (index: int)
    requires TableShape(slots, |keys|)
    ensures index == Answer(hash, keys, slots, g)
  {
    var pos, k := FindSlot(hash, keys, slots, g);
    AnswerIs(hash, keys, slots, g, k);
    index := slots[pos];
  }

  /** When every suffix is answered for, all links are right. */
  ghost predicate SuffixesAnswered(hash: Gram -> nat, t: Trie, tables: Tables, o: nat)
    requires TrieOk(t) && TablesFit(t, tables) && 1 < o < |t|
  {
    forall i, p :: 0 <= i < |t[o]| && 0 <= p < |t[o - 1]| && LinkIs(t, o, i, p) ==>
      Answer(hash, t[o - 1], tables[o - 1], t[o - 1][p]) == p
  }

  lemma {:induction false} AnsweredLinks(hash: Gram -> nat, t: Trie, tables: Tables, o: nat)
    requires TrieOk(t) && SuffixTrie(t) && TablesFit(t, tables) && 0 < o < |t|
    requires forall q :: 1 < q <= o ==> SuffixesAnswered(hash, t, tables, q)
    ensures LinksRight(t, o, Links(hash, t, tables, o))
    decreases o
  {
    hide Answer, TableShape, SuffixTrie;
    var links := Links(hash, t, tables, o);
    if o == 1 {
      forall i | 0 <= i < |t[1]|
        ensures LinkIs(t, 1, i, links[i])
      {
        UnigramLink(t, i);
      }
    } else {
      AnsweredLinks(hash, t, tables, o - 1);
      var below := Links(hash, t, tables, o - 1);
      forall i | 0 <= i < |t[o]|
        ensures LinkIs(t, o, i, links[i])
      {
        WordsParts(t, o, i);
        assert LinkIs(t, o - 1, t[o][i].0, below[t[o][i].0]);
        var p := LinkFound(t, o, i, below[t[o][i].0]);
        assert links[i] == Answer(hash, t[o - 1], tables[o - 1], t[o - 1][p]);
        assert SuffixesAnswered(hash, t, tables, o);
      }
    }
  }
}
