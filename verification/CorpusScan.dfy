/** The counting loop over lines, positions and orders. */
module CorpusScan {
  import opened NgramVector
  import opened NgramTrie
  import opened CorpusCounts

  /** h is the index of the window of order o that ends at p, INVALID when a word in it is. */
  ghost predicate HistAt(t: Trie, h: int, line: seq<int>, p: int, o: nat)
    requires TrieOk(t) && o < |t| && o <= p + 1 <= |line|
  {
    if AllValid(Window(line, p, o)) then Spells(t, o, h, Window(line, p, o)) else h == INVALID
  }

  /** The remembered indices: of position i for the orders before j, else of position i - 1. */
  ghost predicate HistsAt(t: Trie, hists: seq<int>, line: seq<int>, i: nat, j: nat)
    requires TrieOk(t) && 0 < i < |line|
  {
    && |hists| == |t|
    && (forall o :: 0 < o < j && o < |t| && o <= i + 1 ==> HistAt(t, hists[o], line, i, o))
    && (forall o :: j <= o < |t| && 0 < o <= i ==> HistAt(t, hists[o], line, i - 1, o))
  }

  lemma HistStays(t: Trie, u: Trie, h: int, line: seq<int>, p: int, o: nat)
    requires TrieOk(t) && TrieOk(u) && Extends(t, u) && o < |t| && o <= p + 1 <= |line| && HistAt(t, h, line, p, o)
    ensures HistAt(u, h, line, p, o)
  {
    if AllValid(Window(line, p, o)) {
      WordsStay(t, u, o, h);
    }
  }

  lemma HistsStay(t: Trie, u: Trie, hists: seq<int>, line: seq<int>, i: nat, j: nat)
    requires TrieOk(t) && TrieOk(u) && Extends(t, u) && 0 < i < |line| && HistsAt(t, hists, line, i, j)
    ensures HistsAt(u, hists, line, i, j)
  {
    forall o | 0 < o < j && o < |t| && o <= i + 1
      ensures HistAt(u, hists[o], line, i, o)
    {
      HistStays(t, u, hists[o], line, i, o);
    }
    forall o | j <= o < |t| && 0 < o <= i
      ensures HistAt(u, hists[o], line, i - 1, o)
    {
      HistStays(t, u, hists[o], line, i - 1, o);
    }
  }

  /** What has been counted: the first n lines, and the line up to order j at position i. */
  function Counted(lines: seq<seq<int>>, n: nat, line: seq<int>, i: nat, j: nat): Tally
    requires n <= |lines|
  {
    (o: nat, ws: seq<int>) => CorpusCount(lines, n, o, ws) + LineCount(line, if o < j then i + 1 else i, o, ws)
  }

  lemma CountedStep(lines: seq<seq<int>>, n: nat, line: seq<int>, i: nat, j: nat, o: nat, ws: seq<int>)
    requires n <= |lines|
    ensures Counted(lines, n, line, i, j + 1)(o, ws)
         == Counted(lines, n, line, i, j)(o, ws) + (if o == j then Hit(line, i, j, ws) else 0)
  {
    assert LineCount(line, i + 1, o, ws) == LineCount(line, i, o, ws) + Hit(line, i, o, ws);
  }

  lemma SameTally(t: Trie, counts: seq<seq<nat>>, f: Tally, h: Tally)
    requires TrieOk(t) && CountsOk(t, counts) && Tallies(t, counts, f)
    requires forall o: nat, ws :: 0 < o < |t| ==> f(o, ws) == h(o, ws)
    ensures Tallies(t, counts, h)
  {
    forall o, i | 0 < o < |t| && 0 <= i < |t[o]|
      ensures CountIs(t, counts, h, o, i)
    {
      assert CountIs(t, counts, f, o, i);
    }
  }

  /** The window of order j at i is that of order j - 1 at i - 1 and the word at i. */
  lemma WindowGrows(line: seq<int>, i: nat, j: nat)
    requires 0 < i < |line| && 0 < j <= i + 1
    ensures Window(line, i, j) == Window(line, i - 1, j - 1) + [line[i]]
    ensures AllValid(Window(line, i, j)) <==> AllValid(Window(line, i - 1, j - 1)) && line[i] != INVALID
    ensures Window(line, i, j)[1..] == Window(line, i, j - 1)
  {
    var w, v := Window(line, i, j), Window(line, i - 1, j - 1);
    assert w == v + [line[i]];
    if AllValid(w) {
      assert w[j - 1] != INVALID;
      forall p | 0 <= p < |v|
        ensures v[p] != INVALID
      {
        assert w[p] == v[p];
      }
    }
  }

  ghost predicate Scanning(t: Trie, counts: seq<seq<nat>>, hists: seq<int>, hist: int, lines: seq<seq<int>>, n: nat,
                           line: seq<int>, i: nat, j: nat)
  {
    && TrieOk(t) && SuffixTrie(t) && CountsOk(t, counts) && n <= |lines| && 0 < i < |line|
    && 0 < j <= |t| && j <= i + 2
    && Tallies(t, counts, Counted(lines, n, line, i, j))
    && HistsAt(t, hists, line, i, j)
    && (j <= i + 1 ==> HistAt(t, hist, line, i - 1, j - 1))
  }

  /** The body of the innermost loop when word and history are valid. */
  lemma CountStep(t: Trie, counts: seq<seq<nat>>, hists: seq<int>, hist: int, lines: seq<seq<int>>, n: nat,
                  line: seq<int>, i: nat, j: nat)
    requires Scanning(t, counts, hists, hist, lines, n, line, i, j) && j < |t| && j <= i + 1
    requires line[i] != INVALID && hist != INVALID
    ensures 0 <= hist < |t[j - 1]|
    ensures var g := (hist, line[i]); var u := t[j := Added(t[j], g)];
            var index := Position(u[j], g);
            && 0 <= index < |u[j]|
            && var c := counts[j := Grown(counts[j], |u[j]|)];
               Scanning(u, c[j := c[j][index := c[j][index] + 1]], hists[j := index], hists[j], lines, n, line, i, j + 1)
  {
    hide Counted, Hit, AllValid, Tallies, SuffixTrie;
    WindowGrows(line, i, j);
    var g := (hist, line[i]);
    AddedTrie(t, j, g);
    var u := t[j := Added(t[j], g)];
    var index := Position(u[j], g);
    var c := counts[j := Grown(counts[j], |u[j]|)];
    var f, h := Counted(lines, n, line, i, j), Counted(lines, n, line, i, j + 1);
    AddedTallies(t, counts, f, j, g);
    WindowCounted(u, lines, n, line, i, j, index);
    CountedTallies(u, c, f, h, j, index);
    SuffixOfWindow(t, hists, line, i, j, g);
    SuffixesStay(t, j, g);
    HistsStay(t, u, hists, line, i, j);
    HistsMove(u, hists, line, i, j, index);
  }

  lemma WindowCounted(u: Trie, lines: seq<seq<int>>, n: nat, line: seq<int>, i: nat, j: nat, index: nat)
    requires TrieOk(u) && 0 < j < |u| && n <= |lines| && 0 < i < |line| && j <= i + 1
    requires index < |u[j]| && Words(u, j, index) == Window(line, i, j) && AllValid(Window(line, i, j))
    ensures OneMore(Counted(lines, n, line, i, j), Counted(lines, n, line, i, j + 1), j, Words(u, j, index))
  {
    forall q, ws
      ensures Counted(lines, n, line, i, j + 1)(q, ws)
           == Counted(lines, n, line, i, j)(q, ws) + (if q == j && ws == Words(u, j, index) then 1 else 0)
    {
      CountedStep(lines, n, line, i, j, q, ws);
    }
  }

  lemma SuffixOfWindow(t: Trie, hists: seq<int>, line: seq<int>, i: nat, j: nat, g: Gram)
    requires TrieOk(t) && 0 < i < |line| && HistsAt(t, hists, line, i, j) && 0 < j < |t| && j <= i + 1
    requires 0 <= g.0 < |t[j - 1]| && Words(t, j - 1, g.0) + [g.1] == Window(line, i, j) && AllValid(Window(line, i, j))
    ensures j > 1 ==> Present(t, j - 1, (Words(t, j - 1, g.0) + [g.1])[1..])
  {
    WindowGrows(line, i, j);
    if j > 1 {
      assert HistAt(t, hists[j - 1], line, i, j - 1);
      var w, v := Window(line, i, j), Window(line, i, j - 1);
      forall p | 0 <= p < |v|
        ensures v[p] != INVALID
      {
        assert v[p] == w[p + 1];
      }
    }
  }

  /** Remembering the index of order j at position i. */
  lemma HistsMove(t: Trie, hists: seq<int>, line: seq<int>, i: nat, j: nat, index: int)
    requires TrieOk(t) && 0 < i < |line| && HistsAt(t, hists, line, i, j) && 0 < j < |t| && j <= i + 1
    requires HistAt(t, index, line, i, j)
    ensures HistsAt(t, hists[j := index], line, i, j + 1)
    ensures j <= i ==> HistAt(t, hists[j], line, i - 1, j)
  {
    hide HistAt;
  }

  /** The body when the window holds an invalid word. */
  lemma SkipStep(t: Trie, counts: seq<seq<nat>>, hists: seq<int>, hist: int, lines: seq<seq<int>>, n: nat,
                 line: seq<int>, i: nat, j: nat)
    requires Scanning(t, counts, hists, hist, lines, n, line, i, j) && j < |t| && j <= i + 1
    requires line[i] == INVALID || hist == INVALID
    ensures Scanning(t, counts, hists[j := INVALID], hists[j], lines, n, line, i, j + 1)
  {
    hide Counted, Tallies, CountsOk, SuffixTrie;
    WindowGrows(line, i, j);
    assert HistAt(t, INVALID, line, i, j);
    var f, h := Counted(lines, n, line, i, j), Counted(lines, n, line, i, j + 1);
    forall o: nat, ws | 0 < o < |t|
      ensures f(o, ws) == h(o, ws)
    {
      CountedStep(lines, n, line, i, j, o, ws);
    }
    SameTally(t, counts, f, h);
    HistsMove(t, hists, line, i, j, INVALID);
  }

  // ----- the loops -----

  /** All words of the trie are below v. */
  ghost predicate WordsBelow(t: Trie, v: int)
  {
    forall o, i :: 0 < o < |t| && 0 <= i < |t[o]| ==> 0 <= t[o][i].1 < v
  }

  /** The sentence marker is the first word. */
  ghost predicate MarkerFirst(t: Trie)
  {
    |t| > 1 && t[1] != [] && t[1][0] == (0, 0)
  }

  /** The line's words are below v or invalid. */
  predicate LineBelow(line: seq<int>, v: int)
  {
    forall p :: 0 <= p < |line| ==> INVALID <= line[p] < v
  }

  /** All orders at one position. */
  method CountPosition(t0: Trie, counts0: seq<seq<nat>>, hists0: seq<int>, line: seq<int>, i: nat,
                       ghost lines: seq<seq<int>>, ghost n: nat, ghost v: int)
    returns (t: Trie, counts: seq<seq<nat>>, hists: seq<int>, ghost last: int)
    requires WordsBelow(t0, v) && LineBelow(line, v) && MarkerFirst(t0)
    requires i < |line| && |t0| > 0 && Scanning(t0, counts0, hists0, 0, lines, n, line, i, 1)
    ensures WordsBelow(t, v) && MarkerFirst(t)
    ensures |t| == |t0| && Scanning(t, counts, hists, last, lines, n, line, i, if i + 2 < |t| then i + 2 else |t|)
  {
    hide Scanning;
    t, counts, hists := t0, counts0, hists0;
    var word, hist := line[i], 0;
    var j := 1;
    ScanningBounds(t, counts, hists, hist, lines, n, line, i, j);
    while j < (if i + 2 < |t| then i + 2 else |t|)
      invariant |t| == |t0| && 1 <= j <= (if i + 2 < |t| then i + 2 else |t|)
      invariant Scanning(t, counts, hists, hist, lines, n, line, i, j) && WordsBelow(t, v) && MarkerFirst(t)
    {
      ScanningBounds(t, counts, hists, hist, lines, n, line, i, j);
      if word != INVALID && hist != INVALID {
        CountStep(t, counts, hists, hist, lines, n, line, i, j);
        t := t[j := Added(t[j], (hist, word))];
        var index := Position(t[j], (hist, word));
        counts := counts[j := Grown(counts[j], |t[j]|)];
        counts := counts[j := counts[j][index := counts[j][index] + 1]];
        hist, hists := hists[j], hists[j := index];
      } else {
        SkipStep(t, counts, hists, hist, lines, n, line, i, j);
        hist, hists := hists[j], hists[j := INVALID];
      }
      j := j + 1;
    }
    last := hist;
  }

  lemma ScanningBounds(t: Trie, counts: seq<seq<nat>>, hists: seq<int>, hist: int, lines: seq<seq<int>>, n: nat,
                       line: seq<int>, i: nat, j: nat)
    requires Scanning(t, counts, hists, hist, lines, n, line, i, j)
    ensures i < |line| && |hists| == |t| == |counts| && j <= |t|
    ensures j < |t| ==> |counts[j]| == |t[j]|
  {
  }

  /** From the last order at one position to the first at the next. */
  lemma NextPosition(t: Trie, counts: seq<seq<nat>>, hists: seq<int>, last: int, lines: seq<seq<int>>, n: nat,
                     line: seq<int>, i: nat)
    requires |t| > 1 && Scanning(t, counts, hists, last, lines, n, line, i, if i + 2 < |t| then i + 2 else |t|)
    requires i + 1 < |line|
    ensures Scanning(t, counts, hists, 0, lines, n, line, i + 1, 1)
  {
    hide Tallies, SuffixTrie, CountsOk;
    var j := if i + 2 < |t| then i + 2 else |t|;
    TallyMoves(t, counts, lines, n, line, i, j);
    assert Window(line, i, 0) == [];
    assert Spells(t, 0, 0, []);
    forall o | 0 < o <= i + 1 && o < |t|
      ensures HistAt(t, hists[o], line, i, o)
    {
    }
  }

  lemma TallyMoves(t: Trie, counts: seq<seq<nat>>, lines: seq<seq<int>>, n: nat, line: seq<int>, i: nat, j: nat)
    requires TrieOk(t) && CountsOk(t, counts) && n <= |lines| && (j == |t| || j == i + 2)
    requires Tallies(t, counts, Counted(lines, n, line, i, j))
    ensures Tallies(t, counts, Counted(lines, n, line, i + 1, 1))
  {
    var f, h := Counted(lines, n, line, i, j), Counted(lines, n, line, i + 1, 1);
    forall o: nat, ws | 0 < o < |t|
      ensures f(o, ws) == h(o, ws)
    {
      assert LineCount(line, i + 1, o, ws) == LineCount(line, i, o, ws) + Hit(line, i, o, ws);
      if o >= j {
        assert !IsWindow(line, i, o);
      }
    }
    SameTally(t, counts, f, h);
  }

  /** After the last position the line has been counted. */
  lemma LineDone(t: Trie, counts: seq<seq<nat>>, hists: seq<int>, last: int, lines: seq<seq<int>>, n: nat, i: nat)
    requires n < |lines| && i + 1 == |lines[n]| && |t| > 1
    requires Scanning(t, counts, hists, last, lines, n, lines[n], i, if i + 2 < |t| then i + 2 else |t|)
    ensures Tallies(t, counts, Counted(lines, n + 1, [], 0, 0))
  {
    hide Tallies, SuffixTrie, CountsOk, HistsAt, HistAt;
    TallyMoves(t, counts, lines, n, lines[n], i, if i + 2 < |t| then i + 2 else |t|);
    TallyLine(t, counts, lines, n);
  }

  lemma TallyLine(t: Trie, counts: seq<seq<nat>>, lines: seq<seq<int>>, n: nat)
    requires TrieOk(t) && CountsOk(t, counts) && n < |lines|
    requires Tallies(t, counts, Counted(lines, n, lines[n], |lines[n]|, 1))
    ensures Tallies(t, counts, Counted(lines, n + 1, [], 0, 0))
  {
    hide Tallies, CountsOk, Hit;
    var f, h := Counted(lines, n, lines[n], |lines[n]|, 1), Counted(lines, n + 1, [], 0, 0);
    forall o: nat, ws | 0 < o < |t|
      ensures f(o, ws) == h(o, ws)
    {
      assert LineCount([], 0, o, ws) == 0;
      assert CorpusCount(lines, n + 1, o, ws) == CorpusCount(lines, n, o, ws) + LineCount(lines[n], |lines[n]|, o, ws);
    }
    SameTally(t, counts, f, h);
  }

  /** The state before a line is counted, after its start marker has been added. */
  lemma LineStart(t: Trie, counts: seq<seq<nat>>, hists: seq<int>, lines: seq<seq<int>>, n: nat)
    requires TrieOk(t) && SuffixTrie(t) && CountsOk(t, counts) && |t| > 1 && |hists| == |t| && n < |lines|
    requires Tallies(t, counts, Counted(lines, n, [], 0, 0)) && |lines[n]| > 1 && lines[n][0] == 0
    ensures var u := t[1 := Added(t[1], (0, 0))]; var c := counts[1 := Grown(counts[1], |u[1]|)];
            Scanning(u, c, hists[1 := Position(u[1], (0, 0))], 0, lines, n, lines[n], 1, 1)
  {
    hide Tallies, Added, SuffixTrie;
    var line := lines[n];
    AddedTrie(t, 1, (0, 0));
    AddedTallies(t, counts, Counted(lines, n, [], 0, 0), 1, (0, 0));
    SuffixesStay(t, 1, (0, 0));
    var u := t[1 := Added(t[1], (0, 0))];
    var c := counts[1 := Grown(counts[1], |u[1]|)];
    TallyStarts(u, c, lines, n, line);
    assert Window(line, 0, 1) == [0] && Window(line, 0, 0) == [];
    assert Words(t, 0, 0) + [0] == [0];
    assert Spells(u, 0, 0, []);
  }

  lemma TallyStarts(t: Trie, counts: seq<seq<nat>>, lines: seq<seq<int>>, n: nat, line: seq<int>)
    requires TrieOk(t) && CountsOk(t, counts) && n <= |lines| && Tallies(t, counts, Counted(lines, n, [], 0, 0))
    ensures Tallies(t, counts, Counted(lines, n, line, 1, 1))
  {
    hide Tallies, CountsOk;
    var f, h := Counted(lines, n, [], 0, 0), Counted(lines, n, line, 1, 1);
    forall o: nat, ws | 0 < o < |t|
      ensures f(o, ws) == h(o, ws)
    {
      assert LineCount(line, 0, o, ws) == 0 && LineCount([], 0, o, ws) == 0;
      assert LineCount(line, 1, o, ws) == LineCount(line, 0, o, ws) + Hit(line, 0, o, ws);
    }
    SameTally(t, counts, f, h);
  }

  ghost predicate LinesCounted(t: Trie, counts: seq<seq<nat>>, lines: seq<seq<int>>, n: nat)
  {
    TrieOk(t) && SuffixTrie(t) && CountsOk(t, counts) && n <= |lines| && Tallies(t, counts, Counted(lines, n, [], 0, 0))
  }

  /** One line. What hists holds from earlier lines is never used. */
  method CountLine(t0: Trie, counts0: seq<seq<nat>>, hists0: seq<int>, ghost lines: seq<seq<int>>, ghost n: nat, line: seq<int>,
                   ghost v: int)
    returns (t: Trie, counts: seq<seq<nat>>, hists: seq<int>)
    requires WordsBelow(t0, v) && LineBelow(line, v) && (|t0| > 1 && t0[1] != [] ==> MarkerFirst(t0))
    requires |t0| > 1 && |hists0| == |t0| && LinesCounted(t0, counts0, lines, n)
    requires n < |lines| && line == lines[n] && |line| > 1 && line[0] == 0
    ensures |t| == |t0| && |hists| == |t| && LinesCounted(t, counts, lines, n + 1) && WordsBelow(t, v)
    ensures MarkerFirst(t)
  {
    hide Tallies, SuffixTrie, HistsAt, HistAt;
    LineStart(t0, counts0, hists0, lines, n);
    t := t0[1 := Added(t0[1], (0, 0))];
    counts := counts0[1 := Grown(counts0[1], |t[1]|)];
    hists := hists0[1 := Position(t[1], (0, 0))];
    ghost var last := 0;
    var i := 1;
    while i < |line|
      invariant 1 <= i <= |line| && |t| == |t0| && WordsBelow(t, v) && MarkerFirst(t)
      invariant i < |line| ==> Scanning(t, counts, hists, 0, lines, n, line, i, 1)
      invariant i == |line| ==> Scanning(t, counts, hists, last, lines, n, line, i - 1, if i + 1 < |t| then i + 1 else |t|)
    {
      t, counts, hists, last := CountPosition(t, counts, hists, line, i, lines, n, v);
      if i + 1 < |line| {
        NextPosition(t, counts, hists, last, lines, n, line, i);
      }
      i := i + 1;
    }
    LineDone(t, counts, hists, last, lines, n, |line| - 1);
    ScanningBounds(t, counts, hists, last, lines, n, line, |line| - 1, if |line| + 1 < |t| then |line| + 1 else |t|);
  }

  /** The counting part of LoadCorpus for a new model of the given order. */
  method CountLines(order: nat, lines: seq<seq<int>>, ghost v: int) returns (t: Trie, counts: seq<seq<nat>>)
    requires order > 0 && v > 0
    requires forall n :: 0 <= n < |lines| ==> |lines[n]| > 1 && lines[n][0] == 0 && LineBelow(lines[n], v)
    ensures |t| == order + 1 && LinesCounted(t, counts, lines, |lines|) && WordsBelow(t, v)
    ensures t[1] != [] ==> MarkerFirst(t)
  {
    hide LinesCounted;
    t := [[(0, 0)]] + seq(order, _ => []);
    counts := [[0]] + seq(order, _ => []);
    var hists: seq<int> := seq(order + 1, _ => INVALID);
    NothingCounted(t, counts, lines, order);
    for n := 0 to |lines|
      invariant |t| == order + 1 && |hists| == |t| && LinesCounted(t, counts, lines, n) && WordsBelow(t, v)
      invariant t[1] != [] ==> MarkerFirst(t)
    {
      t, counts, hists := CountLine(t, counts, hists, lines, n, lines[n], v);
    }
  }

  lemma NothingCounted(t: Trie, counts: seq<seq<nat>>, lines: seq<seq<int>>, order: nat)
    requires t == [[(0, 0)]] + seq(order, _ => []) && counts == [[0]] + seq(order, _ => [])
    ensures LinesCounted(t, counts, lines, 0)
  {
    assert t[0] == [(0, 0)];
    forall o | 0 < o < |t|
      ensures t[o] == [] && counts[o] == []
    {
    }
    forall o: nat, ws: seq<int>
      ensures Counted(lines, 0, [], 0, 0)(o, ws) == 0
    {
      assert LineCount([], 0, o, ws) == 0 && CorpusCount(lines, 0, o, ws) == 0;
    }
  }
}
