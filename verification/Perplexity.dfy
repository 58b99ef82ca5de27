/** Scoring a text: counting which probabilities and backoff weights its tokens use, and the
    total that the counts weigh out to. */
module Perplexity {
  import opened Arithmetic
  import opened Sums
  import opened NgramVector
  import opened NgramTrie

  // ----- looking n-grams up -----

  /** Index of the n-gram ws, INVALID when it is not in the trie. */
  method FindNgram(t: Trie, ws: seq<int>) returns (index: int)
    requires TrieOk(t) && |ws| < |t|
    ensures Present(t, |ws|, ws) ==> Spells(t, |ws|, index, ws)
    ensures !Present(t, |ws|, ws) ==> index == INVALID
  {
    hide TrieOk;
    index := 0;
    EmptyGram(t);
    for i := 0 to |ws|
      invariant if Present(t, i, ws[..i]) then Spells(t, i, index, ws[..i]) else index == INVALID
    {
      LookupStep(t, ws, i, index);
      index := Position(t[i + 1], (index, ws[i]));
    }
    assert ws[..|ws|] == ws;
  }

  lemma EmptyGram(t: Trie)
    requires TrieOk(t)
    ensures Spells(t, 0, 0, [])
  {
  }

  lemma LookupStep(t: Trie, ws: seq<int>, i: nat, index: int)
    requires TrieOk(t) && i < |ws| < |t|
    requires if Present(t, i, ws[..i]) then Spells(t, i, index, ws[..i]) else index == INVALID
    ensures var next := Position(t[i + 1], (index, ws[i]));
            if Present(t, i + 1, ws[..i + 1]) then Spells(t, i + 1, next, ws[..i + 1]) else next == INVALID
  {
    assert LevelOk(t[i + 1], |t[i]|);
    var next := Position(t[i + 1], (index, ws[i]));
    assert ws[..i + 1][..i] == ws[..i];
    if Present(t, i + 1, ws[..i + 1]) {
      var k :| Spells(t, i + 1, k, ws[..i + 1]);
      WordsParts(t, i + 1, k);
      assert Spells(t, i, t[i + 1][k].0, ws[..i]);
      SpellsOnce(t, i, t[i + 1][k].0, index);
      assert t[i + 1][k] == (index, ws[i]);
    }
    if next != INVALID {
      WordsParts(t, i + 1, next);
      assert Words(t, i + 1, next) == ws[..i + 1];
      assert Spells(t, i + 1, next, ws[..i + 1]);
    }
  }

  // ----- the score of a token -----

  /** Logarithms of the probabilities and backoff weights, by order and index. */
  type Logs = (int, int) -> real

  ghost function GramIndex(t: Trie, o: nat, ws: seq<int>): (i: int)
    requires TrieOk(t) && o < |t| && Present(t, o, ws)
    ensures Spells(t, o, i, ws)
  {
    var i :| Spells(t, o, i, ws);
    i
  }

  /** The recursive backoff score of the last word of ws after the words before it. */
  ghost function BackoffScore(t: Trie, probs: Logs, bows: Logs, ws: seq<int>): real
    requires TrieOk(t) && |ws| < |t|
  {
    if Present(t, |ws|, ws) then probs(|ws|, GramIndex(t, |ws|, ws))
    else if |ws| == 0 then 0.0
    else
      (if Present(t, |ws| - 1, ws[..|ws| - 1]) then bows(|ws| - 1, GramIndex(t, |ws| - 1, ws[..|ws| - 1])) else 0.0)
      + BackoffScore(t, probs, bows, ws[1..])
  }

  /** A word that does not count as known. */
  predicate Unknown(mask: seq<bool>, w: int)
  {
    w == INVALID || !(0 <= w < |mask|) || !mask[w]
  }

  /** The last unknown position before i, from 1 on; -1 when there is none. */
  function LastUnknown(mask: seq<bool>, line: seq<int>, i: nat): int
    requires i <= |line|
  {
    if i <= 1 then -1 else if Unknown(mask, line[i - 1]) then i - 1 else LastUnknown(mask, line, i - 1)
  }

  lemma {:induction false} LastUnknownBefore(mask: seq<bool>, line: seq<int>, i: nat)
    requires i <= |line|
    ensures -1 <= LastUnknown(mask, line, i) && (i > 0 ==> LastUnknown(mask, line, i) < i)
  {
    if i > 1 {
      LastUnknownBefore(mask, line, i - 1);
    }
  }

  function Smaller(a: int, b: int): int
  {
    if a < b then a else b
  }

  /** The order a token is scored with: its context reaches back to the last unknown word. */
  function TokenOrder(mask: seq<bool>, line: seq<int>, i: nat, order: nat): int
    requires i <= |line|
  {
    Smaller(i - LastUnknown(mask, line, i), order)
  }

  ghost function TokenScore(t: Trie, probs: Logs, bows: Logs, mask: seq<bool>, line: seq<int>, i: nat): real
    requires TrieOk(t) && 0 < i < |line|
  {
    LastUnknownBefore(mask, line, i);
    if Unknown(mask, line[i]) then 0.0
    else BackoffScore(t, probs, bows, line[i + 1 - TokenOrder(mask, line, i, |t| - 1)..i + 1])
  }

  ghost function LineScore(t: Trie, probs: Logs, bows: Logs, mask: seq<bool>, line: seq<int>, n: nat): real
    requires TrieOk(t) && 0 < n <= |line|
  {
    if n == 1 then 0.0
    else LineScore(t, probs, bows, mask, line, n - 1) + TokenScore(t, probs, bows, mask, line, n - 1)
  }

  ghost function TextScore(t: Trie, probs: Logs, bows: Logs, mask: seq<bool>, lines: seq<seq<int>>, n: nat): real
    requires TrieOk(t) && n <= |lines| && forall k :: 0 <= k < |lines| ==> |lines[k]| > 0
  {
    if n == 0 then 0.0
    else TextScore(t, probs, bows, mask, lines, n - 1) + LineScore(t, probs, bows, mask, lines[n - 1], |lines[n - 1]|)
  }

  /** Known tokens among the first n of a line, the start marker left out. */
  function KnownWords(mask: seq<bool>, line: seq<int>, n: nat): nat
    requires 0 < n <= |line|
  {
    if n == 1 then 0 else KnownWords(mask, line, n - 1) + (if Unknown(mask, line[n - 1]) then 0 else 1)
  }

  /** Tokens, and known tokens, of the first n lines. */
  function TextTokens(lines: seq<seq<int>>, n: nat): int
    requires n <= |lines|
  {
    if n == 0 then 0 else TextTokens(lines, n - 1) + |lines[n - 1]| - 1
  }

  function TextKnown(mask: seq<bool>, lines: seq<seq<int>>, n: nat): nat
    requires n <= |lines| && forall k :: 0 <= k < |lines| ==> |lines[k]| > 0
  {
    if n == 0 then 0 else TextKnown(mask, lines, n - 1) + KnownWords(mask, lines[n - 1], |lines[n - 1]|)
  }

  // ----- which words count as known -----

  /** The word has an index and the mask admits it. */
  predicate Admitted(mask: seq<bool>, w: int)
  {
    w != INVALID && 0 <= w < |mask| && mask[w]
  }

  /** All words behind the marker are admitted. */
  predicate LineAdmitted(mask: seq<bool>, line: seq<int>)
  {
    forall i :: 1 <= i < |line| ==> Admitted(mask, line[i])
  }

  lemma {:induction false} AdmittedKnown(mask: seq<bool>, line: seq<int>, n: nat)
    requires 0 < n <= |line| && LineAdmitted(mask, line)
    ensures KnownWords(mask, line, n) == n - 1
  {
    if n > 1 {
      AdmittedKnown(mask, line, n - 1);
      assert Admitted(mask, line[n - 1]);
    }
  }

  /** When every word of a text is admitted every token counts as known. */
  lemma {:induction false} AllTokensKnown(mask: seq<bool>, lines: seq<seq<int>>, n: nat)
    requires n <= |lines| && forall k :: 0 <= k < |lines| ==> |lines[k]| > 0 && LineAdmitted(mask, lines[k])
    ensures TextKnown(mask, lines, n) == TextTokens(lines, n)
  {
    if n > 0 {
      AllTokensKnown(mask, lines, n - 1);
      AdmittedKnown(mask, lines[n - 1], |lines[n - 1]|);
    }
  }

  /** Occurrences of w behind the marker among the first n tokens of a line. */
  function Occurrences(line: seq<int>, w: int, n: nat): nat
    requires 0 < n <= |line|
  {
    if n == 1 then 0 else Occurrences(line, w, n - 1) + (if line[n - 1] == w then 1 else 0)
  }

  function TextOccurrences(lines: seq<seq<int>>, w: int, n: nat): nat
    requires n <= |lines| && forall k :: 0 <= k < |lines| ==> |lines[k]| > 0
  {
    if n == 0 then 0 else TextOccurrences(lines, w, n - 1) + Occurrences(lines[n - 1], w, |lines[n - 1]|)
  }

  lemma {:induction false} LineMaskedOut(mask: seq<bool>, w: nat, line: seq<int>, n: nat)
    requires w < |mask| && mask[w] && 0 < n <= |line|
    ensures KnownWords(mask, line, n) == KnownWords(mask[w := false], line, n) + Occurrences(line, w, n)
  {
    if n > 1 {
      LineMaskedOut(mask, w, line, n - 1);
    }
  }

  /** Taking a word out of the mask turns exactly its occurrences into unknown tokens. */
  lemma {:induction false} MaskedOut(mask: seq<bool>, w: nat, lines: seq<seq<int>>, n: nat)
    requires w < |mask| && mask[w] && n <= |lines| && forall k :: 0 <= k < |lines| ==> |lines[k]| > 0
    ensures TextKnown(mask, lines, n) == TextKnown(mask[w := false], lines, n) + TextOccurrences(lines, w, n)
  {
    if n > 0 {
      MaskedOut(mask, w, lines, n - 1);
      LineMaskedOut(mask, w, lines[n - 1], |lines[n - 1]|);
    }
  }

  lemma {:induction false} SinceUnknown(mask: seq<bool>, line: seq<int>, i: nat)
    requires i <= |line|
    ensures var u := LastUnknown(mask, line, i);
            && -1 <= u && u != 0 && (0 < u ==> u < i && !Admitted(mask, line[u]))
            && forall p :: 1 <= p < i && u < p ==> Admitted(mask, line[p])
  {
    if i > 1 {
      SinceUnknown(mask, line, i - 1);
    }
  }

  /** The window an admitted token at i is scored in, of the given greatest order: behind the start
      marker it holds admitted words only, and it could be longer only beyond that order, beyond
      the line, or by a word that is not admitted. */
  lemma WindowOfToken(mask: seq<bool>, line: seq<int>, i: nat, order: nat)
    requires 0 < i < |line| && order > 0 && Admitted(mask, line[i])
    ensures var o := TokenOrder(mask, line, i, order);
            && 1 <= o <= order && o <= i + 1
            && (forall p :: 1 <= p && i + 1 - o <= p <= i ==> Admitted(mask, line[p]))
            && (o == order || o == i + 1 || (i - o >= 1 && !Admitted(mask, line[i - o])))
  {
    SinceUnknown(mask, line, i);
  }

  // ----- what counts weigh out to -----

  ghost function RowTerm(row: seq<nat>, o: int, logs: Logs): int -> real
  {
    i => if 0 <= i < |row| then row[i] as real * logs(o, i) else 0.0
  }

  ghost function RowTotal(row: seq<nat>, o: int, logs: Logs): real
  {
    Sum(|row|, RowTerm(row, o, logs))
  }

  /** The counts of the first n orders, each weighed by its logarithm. */
  ghost function Weighed(counts: seq<seq<nat>>, logs: Logs, n: nat): real
    requires n <= |counts|
  {
    if n == 0 then 0.0 else Weighed(counts, logs, n - 1) + RowTotal(counts[n - 1], n - 1, logs)
  }

  function Bump(counts: seq<seq<nat>>, o: nat, i: nat): seq<seq<nat>>
    requires o < |counts| && i < |counts[o]|
  {
    counts[o := counts[o][i := counts[o][i] + 1]]
  }

  lemma {:induction false} RowBump(row: seq<nat>, o: int, logs: Logs, i: nat, n: nat)
    requires i < |row| && n <= |row|
    ensures Sum(n, RowTerm(row[i := row[i] + 1], o, logs)) == Sum(n, RowTerm(row, o, logs)) + (if i < n then logs(o, i) else 0.0)
  {
    if n > 0 {
      RowBump(row, o, logs, i, n - 1);
      if i == n - 1 {
        OneMoreTerm(row[i], logs(o, i));
      }
    }
  }

  lemma OneMoreTerm(c: nat, v: real)
    ensures (c + 1) as real * v == c as real * v + v
  {
  }

  /** One more count adds one logarithm. */
  lemma {:induction false} BumpWeighs(counts: seq<seq<nat>>, logs: Logs, o: nat, i: nat, n: nat)
    requires o < |counts| && i < |counts[o]| && n <= |counts|
    ensures Weighed(Bump(counts, o, i), logs, n) == Weighed(counts, logs, n) + (if o < n then logs(o, i) else 0.0)
  {
    hide Sum, RowTerm;
    if n > 0 {
      BumpWeighs(counts, logs, o, i, n - 1);
      if o == n - 1 {
        RowBump(counts[o], o, logs, i, |counts[o]|);
      }
    }
  }

  ghost predicate Fits(t: Trie, probCounts: seq<seq<nat>>, bowCounts: seq<seq<nat>>)
  {
    && |probCounts| == |t| && |bowCounts| == |t| - 1
    && (forall o :: 0 <= o < |t| ==> |probCounts[o]| == |t[o]|)
    && (forall o :: 0 <= o < |t| - 1 ==> |bowCounts[o]| == |t[o]|)
  }

  ghost function Score(probCounts: seq<seq<nat>>, bowCounts: seq<seq<nat>>, probs: Logs, bows: Logs): real
  {
    Weighed(probCounts, probs, |probCounts|) + Weighed(bowCounts, bows, |bowCounts|)
  }

  // ----- counting -----

  /** The counts after one more token: under any logarithms the score grows by the token's. */
  ghost predicate Gains(t: Trie, probCounts0: seq<seq<nat>>, bowCounts0: seq<seq<nat>>,
                        probCounts: seq<seq<nat>>, bowCounts: seq<seq<nat>>, ws: seq<int>)
    requires TrieOk(t) && |ws| < |t|
  {
    forall probs, bows :: Score(probCounts, bowCounts, probs, bows)
                          == Score(probCounts0, bowCounts0, probs, bows) + BackoffScore(t, probs, bows, ws)
  }

  /** Scoring done so far and still to do, for what is left of ws after backing off. */
  ghost predicate Balanced(t: Trie, ws: seq<int>, left: seq<int>, probCounts0: seq<seq<nat>>, bowCounts0: seq<seq<nat>>,
                           probCounts: seq<seq<nat>>, bowCounts: seq<seq<nat>>)
    requires TrieOk(t) && |ws| < |t| && |left| < |t|
  {
    forall probs, bows :: Score(probCounts, bowCounts, probs, bows) + BackoffScore(t, probs, bows, left)
                          == Score(probCounts0, bowCounts0, probs, bows) + BackoffScore(t, probs, bows, ws)
  }

  /** One backing off: counts the weight of the history when the history is in the trie. */
  method BackOff(t: Trie, left: seq<int>, bowCounts0: seq<seq<nat>>, ghost ws: seq<int>, ghost probCounts: seq<seq<nat>>,
                 ghost probCounts0: seq<seq<nat>>, ghost bows0: seq<seq<nat>>)
    returns (bowCounts: seq<seq<nat>>)
    requires TrieOk(t) && |ws| < |t| && 0 < |left| < |t| && !Present(t, |left|, left) && Fits(t, probCounts, bowCounts0)
    requires Balanced(t, ws, left, probCounts0, bows0, probCounts, bowCounts0)
    ensures Fits(t, probCounts, bowCounts) && Balanced(t, ws, left[1..], probCounts0, bows0, probCounts, bowCounts)
  {
    hide TrieOk, Score, BackoffScore;
    bowCounts := bowCounts0;
    var hist := FindNgram(t, left[..|left| - 1]);
    if hist != INVALID {
      bowCounts := Bump(bowCounts, |left| - 1, hist);
    }
    forall probs: Logs, bows: Logs
      ensures Score(probCounts, bowCounts, probs, bows) + BackoffScore(t, probs, bows, left[1..])
           == Score(probCounts, bowCounts0, probs, bows) + BackoffScore(t, probs, bows, left)
    {
      BackoffStep(t, probs, bows, left, probCounts, bowCounts0, hist);
    }
  }

  /** Backs off until the n-gram is found, counting the weights on the way. */
  method CountToken(t: Trie, ws: seq<int>, probCounts0: seq<seq<nat>>, bowCounts0: seq<seq<nat>>)
    returns (probCounts: seq<seq<nat>>, bowCounts: seq<seq<nat>>)
    requires TrieOk(t) && |ws| < |t| && Fits(t, probCounts0, bowCounts0)
    ensures Fits(t, probCounts, bowCounts) && Gains(t, probCounts0, bowCounts0, probCounts, bowCounts, ws)
  {
    hide TrieOk, Score, BackoffScore, Balanced, Gains;
    probCounts, bowCounts := probCounts0, bowCounts0;
    BalancedStart(t, ws, probCounts, bowCounts);
    var left := ws;
    var index := FindNgram(t, left);
    while index == INVALID
      invariant |left| <= |ws| && Fits(t, probCounts, bowCounts)
      invariant if Present(t, |left|, left) then Spells(t, |left|, index, left) else index == INVALID
      invariant Balanced(t, ws, left, probCounts0, bowCounts0, probCounts, bowCounts)
      decreases |left|
    {
      NotEmpty(t, left);
      bowCounts := BackOff(t, left, bowCounts, ws, probCounts, probCounts0, bowCounts0);
      left := left[1..];
      index := FindNgram(t, left);
    }
    BalancedEnd(t, ws, left, probCounts0, bowCounts0, probCounts, bowCounts, index);
    probCounts := Bump(probCounts, |left|, index);
  }

  lemma BalancedStart(t: Trie, ws: seq<int>, probCounts: seq<seq<nat>>, bowCounts: seq<seq<nat>>)
    requires TrieOk(t) && |ws| < |t|
    ensures Balanced(t, ws, ws, probCounts, bowCounts, probCounts, bowCounts)
  {
  }

  lemma BalancedEnd(t: Trie, ws: seq<int>, left: seq<int>, probCounts0: seq<seq<nat>>, bowCounts0: seq<seq<nat>>,
                    probCounts: seq<seq<nat>>, bowCounts: seq<seq<nat>>, index: nat)
    requires TrieOk(t) && |ws| < |t| && |left| < |t| && Spells(t, |left|, index, left) && Fits(t, probCounts, bowCounts)
    requires Balanced(t, ws, left, probCounts0, bowCounts0, probCounts, bowCounts)
    ensures Fits(t, Bump(probCounts, |left|, index), bowCounts)
    ensures Gains(t, probCounts0, bowCounts0, Bump(probCounts, |left|, index), bowCounts, ws)
  {
    hide TrieOk, Score, BackoffScore;
    forall probs: Logs, bows: Logs
      ensures Score(Bump(probCounts, |left|, index), bowCounts, probs, bows)
           == Score(probCounts, bowCounts, probs, bows) + BackoffScore(t, probs, bows, left)
    {
      FoundStep(t, probs, bows, left, probCounts, bowCounts, index);
    }
  }

  lemma NotEmpty(t: Trie, left: seq<int>)
    requires TrieOk(t) && |left| < |t| && !Present(t, |left|, left)
    ensures left != []
  {
    EmptyGram(t);
  }

  lemma BackoffStep(t: Trie, probs: Logs, bows: Logs, ws: seq<int>, probCounts: seq<seq<nat>>, bowCounts: seq<seq<nat>>, hist: int)
    requires TrieOk(t) && 0 < |ws| < |t| && !Present(t, |ws|, ws) && Fits(t, probCounts, bowCounts)
    requires if Present(t, |ws| - 1, ws[..|ws| - 1]) then Spells(t, |ws| - 1, hist, ws[..|ws| - 1]) else hist == INVALID
    ensures var bumped := if hist != INVALID then Bump(bowCounts, |ws| - 1, hist) else bowCounts;
            Score(probCounts, bumped, probs, bows) + BackoffScore(t, probs, bows, ws[1..])
            == Score(probCounts, bowCounts, probs, bows) + BackoffScore(t, probs, bows, ws)
  {
    hide Weighed, TrieOk;
    if hist != INVALID {
      SpellsOnce(t, |ws| - 1, hist, GramIndex(t, |ws| - 1, ws[..|ws| - 1]));
      BumpWeighs(bowCounts, bows, |ws| - 1, hist, |bowCounts|);
    }
  }

  lemma FoundStep(t: Trie, probs: Logs, bows: Logs, ws: seq<int>, probCounts: seq<seq<nat>>, bowCounts: seq<seq<nat>>, index: nat)
    requires TrieOk(t) && |ws| < |t| && Spells(t, |ws|, index, ws) && Fits(t, probCounts, bowCounts)
    ensures Score(Bump(probCounts, |ws|, index), bowCounts, probs, bows)
         == Score(probCounts, bowCounts, probs, bows) + BackoffScore(t, probs, bows, ws)
  {
    hide Weighed, TrieOk;
    assert Present(t, |ws|, ws);
    SpellsOnce(t, |ws|, index, GramIndex(t, |ws|, ws));
    BumpWeighs(probCounts, probs, |ws|, index, |probCounts|);
  }

  ghost predicate LineCounted(t: Trie, mask: seq<bool>, line: seq<int>, n: nat, probCounts0: seq<seq<nat>>,
                              bowCounts0: seq<seq<nat>>, probCounts: seq<seq<nat>>, bowCounts: seq<seq<nat>>)
    requires TrieOk(t) && 0 < n <= |line|
  {
    forall probs, bows :: Score(probCounts, bowCounts, probs, bows)
                          == Score(probCounts0, bowCounts0, probs, bows) + LineScore(t, probs, bows, mask, line, n)
  }

  /** All tokens of one line. */
  method CountLine(t: Trie, mask: seq<bool>, line: seq<int>, probCounts0: seq<seq<nat>>, bowCounts0: seq<seq<nat>>)
    returns (probCounts: seq<seq<nat>>, bowCounts: seq<seq<nat>>, numOOV: nat, numWords: nat)
    requires TrieOk(t) && |t| > 1 && |line| > 0 && Fits(t, probCounts0, bowCounts0)
    ensures Fits(t, probCounts, bowCounts)
    ensures LineCounted(t, mask, line, |line|, probCounts0, bowCounts0, probCounts, bowCounts)
    ensures numWords == KnownWords(mask, line, |line|) && numOOV == |line| - 1 - numWords
  {
    hide TrieOk, Score, BackoffScore, Unknown;
    probCounts, bowCounts, numOOV, numWords := probCounts0, bowCounts0, 0, 0;
    var ngramOrder := Smaller(2, |t| - 1);
    var i := 1;
    while i < |line|
      invariant 1 <= i <= |line| && Fits(t, probCounts, bowCounts) && numOOV + numWords == i - 1
      invariant numWords == KnownWords(mask, line, i)
      invariant ngramOrder == TokenOrder(mask, line, i, |t| - 1)
      invariant LineCounted(t, mask, line, i, probCounts0, bowCounts0, probCounts, bowCounts)
    {
      LastUnknownBefore(mask, line, i);
      ghost var before, bowsBefore := probCounts, bowCounts;
      if Unknown(mask, line[i]) {
        ngramOrder := 1;
        numOOV := numOOV + 1;
      } else {
        probCounts, bowCounts := CountToken(t, line[i - ngramOrder + 1..i + 1], probCounts, bowCounts);
        ngramOrder := Smaller(ngramOrder + 1, |t| - 1);
        numWords := numWords + 1;
      }
      LineStep(t, mask, line, i, probCounts0, bowCounts0, before, bowsBefore, probCounts, bowCounts);
      i := i + 1;
    }
  }

  lemma LineStep(t: Trie, mask: seq<bool>, line: seq<int>, i: nat, probCounts0: seq<seq<nat>>, bowCounts0: seq<seq<nat>>,
                 before: seq<seq<nat>>, bowsBefore: seq<seq<nat>>, probCounts: seq<seq<nat>>, bowCounts: seq<seq<nat>>)
    requires TrieOk(t) && |t| > 1 && 0 < i < |line|
    requires LineCounted(t, mask, line, i, probCounts0, bowCounts0, before, bowsBefore)
    requires 1 <= TokenOrder(mask, line, i, |t| - 1) <= i + 1
    requires if Unknown(mask, line[i]) then probCounts == before && bowCounts == bowsBefore
             else Gains(t, before, bowsBefore, probCounts, bowCounts, line[i - TokenOrder(mask, line, i, |t| - 1) + 1..i + 1])
    ensures LineCounted(t, mask, line, i + 1, probCounts0, bowCounts0, probCounts, bowCounts)
  {
    hide TrieOk, Score, BackoffScore, Unknown, TokenOrder;
    forall probs: Logs, bows: Logs
      ensures Score(probCounts, bowCounts, probs, bows)
           == Score(probCounts0, bowCounts0, probs, bows) + LineScore(t, probs, bows, mask, line, i + 1)
    {
      assert LineScore(t, probs, bows, mask, line, i + 1)
          == LineScore(t, probs, bows, mask, line, i) + TokenScore(t, probs, bows, mask, line, i);
    }
  }

  ghost predicate TextCounted(t: Trie, mask: seq<bool>, lines: seq<seq<int>>, n: nat, probCounts: seq<seq<nat>>,
                              bowCounts: seq<seq<nat>>)
    requires TrieOk(t) && n <= |lines| && forall k :: 0 <= k < |lines| ==> |lines[k]| > 0
  {
    forall probs, bows :: Score(probCounts, bowCounts, probs, bows) == TextScore(t, probs, bows, mask, lines, n)
  }

  lemma {:induction false} NothingWeighs(counts: seq<seq<nat>>, logs: Logs, n: nat)
    requires n <= |counts| && forall o, i :: 0 <= o < |counts| && 0 <= i < |counts[o]| ==> counts[o][i] == 0
    ensures Weighed(counts, logs, n) == 0.0
  {
    if n > 0 {
      NothingWeighs(counts, logs, n - 1);
      var row, term := counts[n - 1], RowTerm(counts[n - 1], n - 1, logs);
      forall i | 0 <= i < |row|
        ensures term(i) == 0.0
      {
        assert row[i] == 0;
      }
      SumZero(|row|, term);
    }
  }

  function Zeros(t: Trie, n: nat): (r: seq<seq<nat>>)
    requires n <= |t|
    ensures |r| == n && forall o :: 0 <= o < n ==> |r[o]| == |t[o]|
    ensures forall o, i :: 0 <= o < n && 0 <= i < |t[o]| ==> r[o][i] == 0
  {
    seq(n, o requires 0 <= o < n => seq(|t[o]|, _ => 0))
  }

  /** Counts a text. Whatever probabilities and backoff weights the model has, the counts weigh
      out to the sum over all known tokens of their recursive backoff score, each in the
      context back to the last unknown word. */
  method LoadEvalCorpus(t: Trie, mask: seq<bool>, lines: seq<seq<int>>)
    returns (probCounts: seq<seq<nat>>, bowCounts: seq<seq<nat>>, numOOV: nat, numWords: nat)
    requires TrieOk(t) && |t| > 1 && forall k :: 0 <= k < |lines| ==> |lines[k]| > 0
    ensures Fits(t, probCounts, bowCounts) && TextCounted(t, mask, lines, |lines|, probCounts, bowCounts)
    ensures numWords == TextKnown(mask, lines, |lines|) && numOOV == TextTokens(lines, |lines|) - numWords
    ensures (forall k :: 0 <= k < |lines| ==> LineAdmitted(mask, lines[k])) ==>
              numOOV == 0 && numWords == TextTokens(lines, |lines|)
  {
    hide TrieOk, LineScore, Weighed;
    probCounts, bowCounts, numOOV, numWords := Zeros(t, |t|), Zeros(t, |t| - 1), 0, 0;
    forall probs: Logs, bows: Logs
      ensures Score(probCounts, bowCounts, probs, bows) == 0.0
    {
      NothingWeighs(probCounts, probs, |t|);
      NothingWeighs(bowCounts, bows, |t| - 1);
    }
    for n := 0 to |lines|
      invariant Fits(t, probCounts, bowCounts) && TextCounted(t, mask, lines, n, probCounts, bowCounts)
      invariant numWords == TextKnown(mask, lines, n) && numOOV == TextTokens(lines, n) - numWords
    {
      ghost var before, bowsBefore := probCounts, bowCounts;
      var oov, words;
      probCounts, bowCounts, oov, words := CountLine(t, mask, lines[n], probCounts, bowCounts);
      numOOV, numWords := numOOV + oov, numWords + words;
      TextStep(t, mask, lines, n, before, bowsBefore, probCounts, bowCounts);
    }
    if forall k :: 0 <= k < |lines| ==> LineAdmitted(mask, lines[k]) {
      AllTokensKnown(mask, lines, |lines|);
    }
  }

  lemma TextStep(t: Trie, mask: seq<bool>, lines: seq<seq<int>>, n: nat, before: seq<seq<nat>>, bowsBefore: seq<seq<nat>>,
                 probCounts: seq<seq<nat>>, bowCounts: seq<seq<nat>>)
    requires TrieOk(t) && n < |lines| && forall k :: 0 <= k < |lines| ==> |lines[k]| > 0
    requires TextCounted(t, mask, lines, n, before, bowsBefore)
    requires LineCounted(t, mask, lines[n], |lines[n]|, before, bowsBefore, probCounts, bowCounts)
    ensures TextCounted(t, mask, lines, n + 1, probCounts, bowCounts)
  {
    hide TrieOk, Score, LineScore;
    forall probs: Logs, bows: Logs
      ensures Score(probCounts, bowCounts, probs, bows) == TextScore(t, probs, bows, mask, lines, n + 1)
    {
      assert TextScore(t, probs, bows, mask, lines, n + 1)
          == TextScore(t, probs, bows, mask, lines, n) + LineScore(t, probs, bows, mask, lines[n], |lines[n]|);
    }
  }

  // ----- every known token is counted once -----

  ghost function One(): Logs
  {
    (o: int, i: int) => 1.0
  }

  ghost function Free(): Logs
  {
    (o: int, i: int) => 0.0
  }

  lemma {:induction false} OneGramEach(t: Trie, ws: seq<int>)
    requires TrieOk(t) && |ws| < |t|
    ensures BackoffScore(t, One(), Free(), ws) == 1.0
    decreases |ws|
  {
    if !Present(t, |ws|, ws) {
      EmptyGram(t);
      NotEmpty(t, ws);
      OneGramEach(t, ws[1..]);
    }
  }

  lemma {:induction false} LineCountsTokens(t: Trie, mask: seq<bool>, line: seq<int>, n: nat)
    requires TrieOk(t) && |t| > 1 && 0 < n <= |line|
    ensures LineScore(t, One(), Free(), mask, line, n) == KnownWords(mask, line, n) as real
  {
    if n > 1 {
      hide TrieOk, BackoffScore, Unknown;
      LineCountsTokens(t, mask, line, n - 1);
      LastUnknownBefore(mask, line, n - 1);
      if !Unknown(mask, line[n - 1]) {
        OneGramEach(t, line[n - TokenOrder(mask, line, n - 1, |t| - 1)..n]);
      }
    }
  }

  lemma {:induction false} TextCountsTokens(t: Trie, mask: seq<bool>, lines: seq<seq<int>>, n: nat)
    requires TrieOk(t) && |t| > 1 && n <= |lines| && forall k :: 0 <= k < |lines| ==> |lines[k]| > 0
    ensures TextScore(t, One(), Free(), mask, lines, n) == TextKnown(mask, lines, n) as real
  {
    if n > 0 {
      TextCountsTokens(t, mask, lines, n - 1);
      LineCountsTokens(t, mask, lines[n - 1], |lines[n - 1]|);
    }
  }

  lemma {:induction false} FreeWeighsNothing(counts: seq<seq<nat>>, n: nat)
    requires n <= |counts|
    ensures Weighed(counts, Free(), n) == 0.0
  {
    if n > 0 {
      FreeWeighsNothing(counts, n - 1);
      SumZero(|counts[n - 1]|, RowTerm(counts[n - 1], n - 1, Free()));
    }
  }

  /** The n-gram counts of a text add up to the number of its known tokens. */
  lemma EveryTokenCountsOnce(t: Trie, mask: seq<bool>, lines: seq<seq<int>>, probCounts: seq<seq<nat>>, bowCounts: seq<seq<nat>>)
    requires TrieOk(t) && |t| > 1 && forall k :: 0 <= k < |lines| ==> |lines[k]| > 0
    requires Fits(t, probCounts, bowCounts) && TextCounted(t, mask, lines, |lines|, probCounts, bowCounts)
    ensures Weighed(probCounts, One(), |probCounts|) == TextKnown(mask, lines, |lines|) as real
  {
    hide Weighed, TextScore, TextKnown, TrieOk;
    TextCountsTokens(t, mask, lines, |lines|);
    FreeWeighsNothing(bowCounts, |bowCounts|);
    assert Score(probCounts, bowCounts, One(), Free()) == TextScore(t, One(), Free(), mask, lines, |lines|);
  }

  // ----- the total -----

  /** Logarithm of a probability; zero probabilities are left out of the total. */
  function LogOrSkip(p: real, ln: real -> real): real
  {
    if p == 0.0 then 0.0 else ln(p)
  }

  ghost function LogsOf(table: seq<seq<real>>, ln: real -> real): Logs
  {
    (o: int, i: int) => if 0 <= o < |table| && 0 <= i < |table[o]| then LogOrSkip(table[o][i], ln) else 0.0
  }

  /** The count-weighted sum over one table. */
  method WeighTable(counts: seq<seq<nat>>, table: seq<seq<real>>, ln: real -> real) returns (total: real)
    requires |counts| <= |table| && forall o :: 0 <= o < |counts| ==> |counts[o]| == |table[o]|
    ensures total == Weighed(counts, LogsOf(table, ln), |counts|)
  {
    hide Sum, RowTerm, LogOrSkip;
    total := 0.0;
    for o := 0 to |counts|
      invariant total == Weighed(counts, LogsOf(table, ln), o)
    {
      var row := WeighRow(counts, table, ln, o);
      total := total + row;
    }
  }

  method WeighRow(counts: seq<seq<nat>>, table: seq<seq<real>>, ln: real -> real, o: nat) returns (total: real)
    requires o < |counts| <= |table| && |counts[o]| == |table[o]|
    ensures total == RowTotal(counts[o], o, LogsOf(table, ln))
  {
    hide LogOrSkip;
    total := 0.0;
    for i := 0 to |counts[o]|
      invariant total == Sum(i, RowTerm(counts[o], o, LogsOf(table, ln)))
    {
      RowTermIs(counts[o], o, table, ln, i);
      if counts[o][i] > 0 {
        if table[o][i] != 0.0 {
          total := total + counts[o][i] as real * ln(table[o][i]);
        }
      }
    }
  }

  lemma RowTermIs(row: seq<nat>, o: nat, table: seq<seq<real>>, ln: real -> real, i: nat)
    requires o < |table| && |row| == |table[o]| && i < |row|
    ensures RowTerm(row, o, LogsOf(table, ln))(i)
         == if row[i] == 0 || table[o][i] == 0.0 then 0.0 else row[i] as real * ln(table[o][i])
  {
    ZeroTimes(row[i] as real);
    ZeroTimes(LogsOf(table, ln)(o, i));
  }

  /** The total log probability of a text, from the counts of the text: the sum over its known
      tokens of the recursive backoff log probability. */
  method TotalLogProb(t: Trie, mask: seq<bool>, ghost lines: seq<seq<int>>, probCounts: seq<seq<nat>>, bowCounts: seq<seq<nat>>,
                      probs: seq<seq<real>>, bows: seq<seq<real>>, ln: real -> real) returns (total: real)
    requires TrieOk(t) && |t| > 1 && (forall k :: 0 <= k < |lines| ==> |lines[k]| > 0)
    requires Fits(t, probCounts, bowCounts) && TextCounted(t, mask, lines, |lines|, probCounts, bowCounts)
    requires |probs| == |t| && forall o :: 0 <= o < |t| ==> |probs[o]| == |t[o]|
    requires |bows| == |t| - 1 && forall o :: 0 <= o < |t| - 1 ==> |bows[o]| == |t[o]|
    requires forall o, i :: 0 <= o < |t| - 1 && 0 <= i < |t[o]| && bowCounts[o][i] > 0 ==> bows[o][i] != 0.0
    ensures total == TextScore(t, LogsOf(probs, ln), LogsOf(bows, ln), mask, lines, |lines|)
  {
    hide Weighed, TextScore, LogsOf, TrieOk;
    var p := WeighTable(probCounts, probs, ln);
    var b := WeighTable(bowCounts, bows, ln);
    total := p + b;
    assert Score(probCounts, bowCounts, LogsOf(probs, ln), LogsOf(bows, ln)) == total;
  }

  // ----- zero probabilities -----

  /** Tokens whose probability is zero, and different n-grams among them. */
  function ZeroTokens(row: seq<nat>, probs: seq<real>, n: nat): nat
    requires n <= |row| && n <= |probs|
  {
    if n == 0 then 0
    else ZeroTokens(row, probs, n - 1) + (if probs[n - 1] == 0.0 then row[n - 1] else 0)
  }

  function ZeroGrams(row: seq<nat>, probs: seq<real>, n: nat): nat
    requires n <= |row| && n <= |probs|
  {
    if n == 0 then 0
    else ZeroGrams(row, probs, n - 1) + (if probs[n - 1] == 0.0 && row[n - 1] > 0 then 1 else 0)
  }

  lemma {:induction false} RowZerosCountedOnce(row: seq<nat>, probs: seq<real>, n: nat)
    requires n <= |row| && n <= |probs|
    ensures ZeroGrams(row, probs, n) <= ZeroTokens(row, probs, n)
    ensures ZeroGrams(row, probs, n) == ZeroTokens(row, probs, n)
       <==> forall i :: 0 <= i < n && probs[i] == 0.0 ==> row[i] <= 1
  {
    if n > 0 {
      RowZerosCountedOnce(row, probs, n - 1);
    }
  }

  /** The zero-probability counter of one order. */
  method CountZeros(row: seq<nat>, probs: seq<real>) returns (n: nat)
    requires |row| == |probs|
    ensures n == ZeroGrams(row, probs, |row|)
  {
    n := 0;
    for i := 0 to |row|
      invariant n == ZeroGrams(row, probs, i)
    {
      if row[i] > 0 {
        if probs[i] == 0.0 {
          n := n + 1;
        }
      }
    }
  }

  /** All orders together. */
  function AllZeroTokens(counts: seq<seq<nat>>, probs: seq<seq<real>>, n: nat): nat
    requires n <= |counts| == |probs| && forall o :: 0 <= o < |counts| ==> |counts[o]| == |probs[o]|
  {
    if n == 0 then 0 else AllZeroTokens(counts, probs, n - 1) + ZeroTokens(counts[n - 1], probs[n - 1], |counts[n - 1]|)
  }

  function AllZeroGrams(counts: seq<seq<nat>>, probs: seq<seq<real>>, n: nat): nat
    requires n <= |counts| == |probs| && forall o :: 0 <= o < |counts| ==> |counts[o]| == |probs[o]|
  {
    if n == 0 then 0 else AllZeroGrams(counts, probs, n - 1) + ZeroGrams(counts[n - 1], probs[n - 1], |counts[n - 1]|)
  }

  ghost predicate UsedOnce(row: seq<nat>, probs: seq<real>)
    requires |row| == |probs|
  {
    forall i :: 0 <= i < |row| && probs[i] == 0.0 ==> row[i] <= 1
  }

  /** The entropy's divisor takes off one per n-gram of zero probability; that is one per token
      exactly when no such n-gram, of any order, is used twice. */
  lemma {:induction false} ZerosCountedOnce(counts: seq<seq<nat>>, probs: seq<seq<real>>, n: nat)
    requires n <= |counts| == |probs| && forall o :: 0 <= o < |counts| ==> |counts[o]| == |probs[o]|
    ensures AllZeroGrams(counts, probs, n) <= AllZeroTokens(counts, probs, n)
    ensures AllZeroGrams(counts, probs, n) == AllZeroTokens(counts, probs, n)
       <==> forall o :: 0 <= o < n ==> UsedOnce(counts[o], probs[o])
  {
    if n > 0 {
      ZerosCountedOnce(counts, probs, n - 1);
      RowZerosCountedOnce(counts[n - 1], probs[n - 1], |counts[n - 1]|);
    }
  }

  // ----- which tokens those are -----

  ghost function IsZero(probs: seq<seq<real>>): Logs
  {
    (o: int, i: int) => if 0 <= o < |probs| && 0 <= i < |probs[o]| && probs[o][i] == 0.0 then 1.0 else 0.0
  }

  lemma {:induction false} RowZerosWeigh(row: seq<nat>, o: nat, probs: seq<seq<real>>, n: nat)
    requires o < |probs| && n <= |row| == |probs[o]|
    ensures Sum(n, RowTerm(row, o, IsZero(probs))) == ZeroTokens(row, probs[o], n) as real
  {
    if n > 0 {
      RowZerosWeigh(row, o, probs, n - 1);
    }
  }

  lemma {:induction false} ZerosWeigh(counts: seq<seq<nat>>, probs: seq<seq<real>>, n: nat)
    requires n <= |counts| == |probs| && forall o :: 0 <= o < |counts| ==> |counts[o]| == |probs[o]|
    ensures Weighed(counts, IsZero(probs), n) == AllZeroTokens(counts, probs, n) as real
  {
    if n > 0 {
      ZerosWeigh(counts, probs, n - 1);
      RowZerosWeigh(counts[n - 1], n - 1, probs, |counts[n - 1]|);
    }
  }

  lemma {:induction false} ZeroScore(t: Trie, probs: seq<seq<real>>, ws: seq<int>)
    requires TrieOk(t) && |ws| < |t|
    ensures 0.0 <= BackoffScore(t, IsZero(probs), Free(), ws) <= 1.0
    decreases |ws|
  {
    if !Present(t, |ws|, ws) && ws != [] {
      ZeroScore(t, probs, ws[1..]);
    }
  }

  lemma {:induction false} LineZeros(t: Trie, probs: seq<seq<real>>, mask: seq<bool>, line: seq<int>, n: nat)
    requires TrieOk(t) && |t| > 1 && 0 < n <= |line|
    ensures LineScore(t, IsZero(probs), Free(), mask, line, n) <= KnownWords(mask, line, n) as real
  {
    if n > 1 {
      hide TrieOk, BackoffScore, Unknown, IsZero;
      LineZeros(t, probs, mask, line, n - 1);
      LastUnknownBefore(mask, line, n - 1);
      if !Unknown(mask, line[n - 1]) {
        ZeroScore(t, probs, line[n - TokenOrder(mask, line, n - 1, |t| - 1)..n]);
      }
    }
  }

  lemma {:induction false} TextZeros(t: Trie, probs: seq<seq<real>>, mask: seq<bool>, lines: seq<seq<int>>, n: nat)
    requires TrieOk(t) && |t| > 1 && n <= |lines| && forall k :: 0 <= k < |lines| ==> |lines[k]| > 0
    ensures TextScore(t, IsZero(probs), Free(), mask, lines, n) <= TextKnown(mask, lines, n) as real
  {
    if n > 0 {
      TextZeros(t, probs, mask, lines, n - 1);
      LineZeros(t, probs, mask, lines[n - 1], |lines[n - 1]|);
    }
  }

  /** The tokens of zero probability are the known tokens that back off to an n-gram of zero
      probability; the divisor never falls below zero. */
  lemma ZeroTokensOfText(t: Trie, mask: seq<bool>, lines: seq<seq<int>>, probCounts: seq<seq<nat>>, bowCounts: seq<seq<nat>>,
                         probs: seq<seq<real>>)
    requires TrieOk(t) && |t| > 1 && forall k :: 0 <= k < |lines| ==> |lines[k]| > 0
    requires Fits(t, probCounts, bowCounts) && TextCounted(t, mask, lines, |lines|, probCounts, bowCounts)
    requires |probs| == |t| && forall o :: 0 <= o < |t| ==> |probs[o]| == |t[o]|
    ensures AllZeroTokens(probCounts, probs, |t|) as real == TextScore(t, IsZero(probs), Free(), mask, lines, |lines|)
    ensures AllZeroGrams(probCounts, probs, |t|) <= AllZeroTokens(probCounts, probs, |t|) <= TextKnown(mask, lines, |lines|)
  {
    hide Weighed, TextScore, TextKnown, TrieOk, IsZero, AllZeroGrams, AllZeroTokens, UsedOnce;
    ZerosCountedOnce(probCounts, probs, |t|);
    ZerosWeigh(probCounts, probs, |t|);
    FreeWeighsNothing(bowCounts, |bowCounts|);
    TextZeros(t, probs, mask, lines, |lines|);
    assert Score(probCounts, bowCounts, IsZero(probs), Free()) == TextScore(t, IsZero(probs), Free(), mask, lines, |lines|);
  }

  // ----- the entropy -----

  /** Infinite stands for a nonzero quotient by zero, Seven for zero by zero. */
  datatype Entropy = Value(e: real) | Infinite | Seven

  function Quotient(total: real, n: int): Entropy
  {
    if n != 0 then Value(-total / n as real) else if total == 0.0 then Seven else Infinite
  }

  lemma QuotientMeans(total: real, n: int)
    ensures n != 0 ==> Quotient(total, n).Value? && Quotient(total, n).e * n as real == -total
    ensures n == 0 ==> Quotient(total, n) == if total == 0.0 then Seven else Infinite
  {
  }

  /** The entropy per token of a text: the recursive backoff score of its tokens over the number
      of known tokens less the number of n-grams of zero probability. */
  method ComputeEntropy(t: Trie, mask: seq<bool>, ghost lines: seq<seq<int>>, probCounts: seq<seq<nat>>, bowCounts: seq<seq<nat>>,
                        numWords: nat, probs: seq<seq<real>>, bows: seq<seq<real>>, ln: real -> real) returns (e: Entropy)
    requires TrieOk(t) && |t| > 1 && (forall k :: 0 <= k < |lines| ==> |lines[k]| > 0)
    requires Fits(t, probCounts, bowCounts) && TextCounted(t, mask, lines, |lines|, probCounts, bowCounts)
    requires numWords == TextKnown(mask, lines, |lines|)
    requires |probs| == |t| && forall o :: 0 <= o < |t| ==> |probs[o]| == |t[o]|
    requires |bows| == |t| - 1 && forall o :: 0 <= o < |t| - 1 ==> |bows[o]| == |t[o]|
    requires forall o, i :: 0 <= o < |t| - 1 && 0 <= i < |t[o]| && bowCounts[o][i] > 0 ==> bows[o][i] != 0.0
    ensures AllZeroGrams(probCounts, probs, |t|) <= TextKnown(mask, lines, |lines|)
    ensures var total := TextScore(t, LogsOf(probs, ln), LogsOf(bows, ln), mask, lines, |lines|);
            var n := TextKnown(mask, lines, |lines|) - AllZeroGrams(probCounts, probs, |t|);
            && (n != 0 ==> e.Value? && e.e * n as real == -total)
            && (n == 0 && total == 0.0 ==> e == Seven) && (n == 0 && total != 0.0 ==> e == Infinite)
  {
    hide Weighed, TextScore, TextKnown, LogsOf, TrieOk, IsZero, AllZeroTokens, TextCounted;
    ZeroTokensOfText(t, mask, lines, probCounts, bowCounts, probs);
    var total := TotalLogProb(t, mask, lines, probCounts, bowCounts, probs, bows, ln);
    var zeros := 0;
    for o := 0 to |t|
      invariant zeros == AllZeroGrams(probCounts, probs, o)
    {
      var row := CountZeros(probCounts[o], probs[o]);
      zeros := zeros + row;
    }
    e := Quotient(total, numWords - zeros);
    QuotientMeans(total, numWords - zeros);
  }
}
