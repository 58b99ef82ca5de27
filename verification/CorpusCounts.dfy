/** Counting the n-grams of a corpus: what the loop over positions and orders adds up to. */
module CorpusCounts {
  import opened NgramVector
  import opened NgramTrie

  /** A line between two end-of-sentence markers. */
  function Marked(tokens: seq<int>): seq<int>
  {
    [0] + tokens + [0]
  }

  /** The window of order o that ends at position i lies in the line and has no invalid word. */
  predicate IsWindow(line: seq<int>, i: int, o: nat)
  {
    o <= i + 1 <= |line| && AllValid(line[i + 1 - o..i + 1])
  }

  predicate AllValid(ws: seq<int>)
  {
    forall p :: 0 <= p < |ws| ==> ws[p] != INVALID
  }

  function Window(line: seq<int>, i: int, o: nat): seq<int>
    requires o <= i + 1 <= |line|
  {
    line[i + 1 - o..i + 1]
  }

  /** One if the window of order o at i counts as ws. */
  function Hit(line: seq<int>, i: int, o: nat, ws: seq<int>): nat
  {
    if i >= 1 && IsWindow(line, i, o) && Window(line, i, o) == ws then 1 else 0
  }

  /** Windows of order o that spell ws and end before position n, from position 1 on. */
  function LineCount(line: seq<int>, n: nat, o: nat, ws: seq<int>): nat
  {
    if n == 0 then 0 else LineCount(line, n - 1, o, ws) + Hit(line, n - 1, o, ws)
  }

  function CorpusCount(lines: seq<seq<int>>, n: nat, o: nat, ws: seq<int>): nat
    requires n <= |lines|
  {
    if n == 0 then 0
    else CorpusCount(lines, n - 1, o, ws) + LineCount(lines[n - 1], |lines[n - 1]|, o, ws)
  }

  /** A counted n-gram has a counted suffix: both end at the same positions. */
  lemma {:induction false} SuffixLineCount(line: seq<int>, n: nat, o: nat, ws: seq<int>)
    requires o > 0 && |ws| == o
    ensures LineCount(line, n, o, ws) <= LineCount(line, n, o - 1, ws[1..])
  {
    if n > 0 {
      SuffixLineCount(line, n - 1, o, ws);
      if Hit(line, n - 1, o, ws) == 1 {
        assert Window(line, n - 1, o - 1) == Window(line, n - 1, o)[1..];
        assert forall p :: 0 <= p < o - 1 ==> ws[1..][p] == ws[p + 1];
      }
    }
  }

  lemma {:induction false} SuffixCount(lines: seq<seq<int>>, n: nat, o: nat, ws: seq<int>)
    requires n <= |lines| && o > 0 && |ws| == o
    ensures CorpusCount(lines, n, o, ws) <= CorpusCount(lines, n, o - 1, ws[1..])
  {
    if n > 0 {
      SuffixCount(lines, n - 1, o, ws);
      SuffixLineCount(lines[n - 1], |lines[n - 1]|, o, ws);
    }
  }

  // ----- counts against a tally -----

  /** How often each word sequence has been counted. */
  type Tally = (nat, seq<int>) -> nat

  ghost predicate CountsOk(t: Trie, counts: seq<seq<nat>>)
  {
    |counts| == |t| && forall o :: 0 <= o < |t| ==> |counts[o]| == |t[o]|
  }

  /** The counts of the orders from 1 are those of the tally, and everything tallied is there. */
  ghost predicate Tallies(t: Trie, counts: seq<seq<nat>>, f: Tally)
    requires TrieOk(t) && CountsOk(t, counts)
  {
    && (forall o, i :: 0 < o < |t| && 0 <= i < |t[o]| ==> CountIs(t, counts, f, o, i))
    && (forall o: nat, ws :: 0 < o < |t| && f(o, ws) > 0 ==> Present(t, o, ws))
  }

  ghost predicate CountIs(t: Trie, counts: seq<seq<nat>>, f: Tally, o: nat, i: nat)
    requires TrieOk(t) && CountsOk(t, counts) && o < |t| && i < |t[o]|
  {
    counts[o][i] == f(o, Words(t, o, i))
  }

  /** The counts with room for the keys of u: new n-grams start at zero. */
  function Grown(counts: seq<nat>, n: nat): (r: seq<nat>)
    requires |counts| <= n
    ensures |r| == n && forall i :: 0 <= i < n ==> r[i] == if i < |counts| then counts[i] else 0
  {
    counts + seq(n - |counts|, _ => 0)
  }

  /** Adding an n-gram without counting it keeps the tally, if it was never counted before. */
  lemma AddedTallies(t: Trie, counts: seq<seq<nat>>, f: Tally, o: nat, g: Gram)
    requires TrieOk(t) && CountsOk(t, counts) && Tallies(t, counts, f)
    requires 0 < o < |t| && 0 <= g.0 < |t[o - 1]|
    ensures var u := t[o := Added(t[o], g)]; var c := counts[o := Grown(counts[o], |u[o]|)];
            TrieOk(u) && CountsOk(u, c) && Tallies(u, c, f)
  {
    AddedTrie(t, o, g);
    var u := t[o := Added(t[o], g)];
    var c := counts[o := Grown(counts[o], |u[o]|)];
    forall q, i | 0 < q < |u| && 0 <= i < |u[q]|
      ensures CountIs(u, c, f, q, i)
    {
      if i < |t[q]| {
        WordsStay(t, u, q, i);
        assert CountIs(t, counts, f, q, i);
      } else {
        NewUncounted(t, counts, f, u, q, i);
      }
    }
    forall q: nat, ws | 0 < q < |u| && f(q, ws) > 0
      ensures Present(u, q, ws)
    {
      PresentStays(t, u, q, ws);
    }
  }

  lemma NewUncounted(t: Trie, counts: seq<seq<nat>>, f: Tally, u: Trie, q: nat, i: nat)
    requires TrieOk(t) && CountsOk(t, counts) && Tallies(t, counts, f) && TrieOk(u) && Extends(t, u)
    requires 0 < q < |u| && |t[q]| <= i < |u[q]|
    ensures f(q, Words(u, q, i)) == 0
  {
    if f(q, Words(u, q, i)) > 0 {
      var j :| Spells(t, q, j, Words(u, q, i));
      WordsStay(t, u, q, j);
      SpellsOnce(u, q, i, j);
    }
  }

  ghost predicate OneMore(f: Tally, h: Tally, o: nat, ws: seq<int>)
  {
    forall q, vs :: h(q, vs) == f(q, vs) + (if q == o && vs == ws then 1 else 0)
  }

  /** Counting n-gram i of order o moves the tally by one at its words. */
  lemma CountedTallies(t: Trie, counts: seq<seq<nat>>, f: Tally, h: Tally, o: nat, i: nat)
    requires TrieOk(t) && CountsOk(t, counts) && Tallies(t, counts, f) && 0 < o < |t| && i < |t[o]|
    requires OneMore(f, h, o, Words(t, o, i))
    ensures var c := counts[o := counts[o][i := counts[o][i] + 1]]; CountsOk(t, c) && Tallies(t, c, h)
  {
    var c := counts[o := counts[o][i := counts[o][i] + 1]];
    forall q, j | 0 < q < |t| && 0 <= j < |t[q]|
      ensures CountIs(t, c, h, q, j)
    {
      assert CountIs(t, counts, f, q, j);
      if q == o && Words(t, o, i) == Words(t, o, j) {
        SpellsOnce(t, o, i, j);
      }
    }
    forall q: nat, ws | 0 < q < |t| && h(q, ws) > 0
      ensures Present(t, q, ws)
    {
      if q == o && ws == Words(t, o, i) {
        assert Spells(t, o, i, ws);
      }
    }
  }
}
