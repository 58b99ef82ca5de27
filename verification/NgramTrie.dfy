/** The n-grams of all orders as index trees: order o points into order o - 1. Each order holds
    what its NgramVector stores, in index order. */
module NgramTrie {
  import opened Distinctness
  import opened NgramVector

  type Trie = seq<seq<Gram>>

  ghost predicate LevelOk(keys: seq<Gram>, below: nat)
  {
    Distinct(keys) && forall i :: 0 <= i < |keys| ==> 0 <= keys[i].0 < below
  }

  ghost predicate TrieOk(t: Trie)
  {
    |t| > 0 && t[0] == [(0, 0)] && forall o :: 0 < o < |t| ==> LevelOk(t[o], |t[o - 1]|)
  }

  /** The words of n-gram i of order o. */
  ghost function Words(t: Trie, o: nat, i: nat): (ws: seq<int>)
    requires TrieOk(t) && o < |t| && i < |t[o]|
    ensures |ws| == o
    decreases o
  {
    if o == 0 then []
    else
      assert LevelOk(t[o], |t[o - 1]|);
      Words(t, o - 1, t[o][i].0) + [t[o][i].1]
  }

  ghost predicate Spells(t: Trie, o: nat, i: int, ws: seq<int>)
    requires TrieOk(t) && o < |t|
  {
    0 <= i < |t[o]| && Words(t, o, i) == ws
  }

  ghost predicate Present(t: Trie, o: nat, ws: seq<int>)
    requires TrieOk(t) && o < |t|
  {
    exists i :: Spells(t, o, i, ws)
  }

  lemma WordsParts(t: Trie, o: nat, i: nat)
    requires TrieOk(t) && 0 < o < |t| && i < |t[o]|
    ensures 0 <= t[o][i].0 < |t[o - 1]|
    ensures Words(t, o, i)[..o - 1] == Words(t, o - 1, t[o][i].0) && Words(t, o, i)[o - 1] == t[o][i].1
  {
    assert LevelOk(t[o], |t[o - 1]|);
  }

  /** Different n-grams spell differently. */
  lemma {:induction false} SpellsOnce(t: Trie, o: nat, i: nat, j: nat)
    requires TrieOk(t) && o < |t| && i < |t[o]| && j < |t[o]| && Words(t, o, i) == Words(t, o, j)
    ensures i == j
    decreases o
  {
    if o > 0 {
      WordsParts(t, o, i);
      WordsParts(t, o, j);
      SpellsOnce(t, o - 1, t[o][i].0, t[o][j].0);
      assert LevelOk(t[o], |t[o - 1]|);
    }
  }

  // ----- adding n-grams -----

  /** The index of a key, -1 when it is not there: what Find answers. */
  function Position(keys: seq<Gram>, g: Gram): (i: int)
    ensures g in keys ==> 0 <= i < |keys| && keys[i] == g
    ensures g !in keys ==> i == INVALID
  {
    if keys == [] then INVALID
    else if keys[|keys| - 1] == g then |keys| - 1
    else
      assert keys == keys[..|keys| - 1] + [keys[|keys| - 1]];
      Position(keys[..|keys| - 1], g)
  }

  /** The keys after adding g: what Add leaves. */
  function Added(keys: seq<Gram>, g: Gram): seq<Gram>
  {
    if g in keys then keys else keys + [g]
  }

  ghost predicate Extends(t: Trie, u: Trie)
  {
    |t| == |u| && forall o :: 0 <= o < |t| ==> t[o] <= u[o]
  }

  lemma {:induction false} WordsStay(t: Trie, u: Trie, o: nat, i: nat)
    requires TrieOk(t) && TrieOk(u) && Extends(t, u) && o < |t| && i < |t[o]|
    ensures i < |u[o]| && Words(u, o, i) == Words(t, o, i)
    decreases o
  {
    assert t[o] <= u[o];
    if o > 0 {
      WordsParts(t, o, i);
      WordsStay(t, u, o - 1, t[o][i].0);
    }
  }

  lemma PresentStays(t: Trie, u: Trie, o: nat, ws: seq<int>)
    requires TrieOk(t) && TrieOk(u) && Extends(t, u) && o < |t| && Present(t, o, ws)
    ensures Present(u, o, ws)
  {
    var i :| Spells(t, o, i, ws);
    WordsStay(t, u, o, i);
    assert Spells(u, o, i, ws);
  }

  /** Adding an n-gram keeps the trie and spells the history and the word. */
  lemma AddedTrie(t: Trie, o: nat, g: Gram)
    requires TrieOk(t) && 0 < o < |t| && 0 <= g.0 < |t[o - 1]|
    ensures TrieOk(t[o := Added(t[o], g)]) && Extends(t, t[o := Added(t[o], g)])
    ensures var u := t[o := Added(t[o], g)];
            Spells(u, o, Position(u[o], g), Words(t, o - 1, g.0) + [g.1])
  {
    assert LevelOk(t[o], |t[o - 1]|);
    var u := t[o := Added(t[o], g)];
    if g !in t[o] {
      SnocDistinct(t[o], g);
    }
    forall q | 0 < q < |u|
      ensures LevelOk(u[q], |u[q - 1]|)
    {
      assert LevelOk(t[q], |t[q - 1]|);
    }
    WordsStay(t, u, o - 1, g.0);
  }

  /** Every n-gram longer than a word has its suffix in the order below. */
  ghost predicate SuffixTrie(t: Trie)
    requires TrieOk(t)
  {
    forall o, i :: 1 < o < |t| && 0 <= i < |t[o]| ==> SuffixPresent(t, o, i)
  }

  ghost predicate SuffixPresent(t: Trie, o: nat, i: nat)
    requires TrieOk(t) && 1 < o < |t| && i < |t[o]|
  {
    Present(t, o - 1, Words(t, o, i)[1..])
  }

  lemma SuffixesStay(t: Trie, o: nat, g: Gram)
    requires TrieOk(t) && SuffixTrie(t) && 0 < o < |t| && 0 <= g.0 < |t[o - 1]|
    requires o > 1 ==> Present(t, o - 1, (Words(t, o - 1, g.0) + [g.1])[1..])
    ensures TrieOk(t[o := Added(t[o], g)]) && SuffixTrie(t[o := Added(t[o], g)])
  {
    AddedTrie(t, o, g);
    var u := t[o := Added(t[o], g)];
    forall q, i | 1 < q < |u| && 0 <= i < |u[q]|
      ensures SuffixPresent(u, q, i)
    {
      if i < |t[q]| {
        WordsStay(t, u, q, i);
        assert SuffixPresent(t, q, i);
        PresentStays(t, u, q - 1, Words(t, q, i)[1..]);
      } else {
        assert q == o && u[q][i] == g;
        WordsParts(u, o, i);
        WordsStay(t, u, o - 1, g.0);
        assert Words(u, o, i) == Words(t, o - 1, g.0) + [g.1];
        PresentStays(t, u, o - 1, Words(u, o, i)[1..]);
      }
    }
  }
}
