/** Reading the n best alignments back from the filled table. */
module Backtracking {
  import opened Sequences
  import opened Distinctness
  import opened Joining
  import opened Segmentation
  import opened AlignmentSums
  import opened Sorting
  import opened NBestAlignment
  import opened NBestTable

  function Reversed<T>(s: seq<T>): seq<T>
  {
    if s == [] then [] else [Last(s)] + Reversed(Init(s))
  }

  /** How the output shows a stretch of tokens; an empty one shows as the null symbol. */
  function Show(piece: seq<string>, par: Param): string
  {
    if piece == [] then par.nullChar else Join(piece, par.sepInChar)
  }

  /** Nothing shows as the null symbol, a token as itself, and a longer stretch as its parts with
      one separator between them. */
  lemma ShowLaws(a: seq<string>, b: seq<string>, w: string, par: Param)
    ensures Show([], par) == par.nullChar && Show([w], par) == w
    ensures a != [] && b != [] ==> Show(a + b, par) == Show(a, par) + par.sepInChar + Show(b, par)
  {
    JoinOne(w, par.sepInChar);
    if a != [] && b != [] {
      JoinSplits(a, b, par.sepInChar);
    }
  }

  function Shown(pieces: seq<seq<string>>, par: Param): seq<string>
  {
    if pieces == [] then [] else Shown(Init(pieces), par) + [Show(Last(pieces), par)]
  }

  function ShowX(t: Task, s: seq<Move>, a: nat): seq<string>
    requires a <= |t.x|
  {
    Shown(XPieces(t.x, s, a), t.par)
  }

  function ShowY(t: Task, s: seq<Move>, b: nat): seq<string>
    requires b <= |t.y|
  {
    Shown(YPieces(t.y, s, b), t.par)
  }

  lemma ShowSnoc(t: Task, s: seq<Move>, m: Move, a: nat, b: nat)
    requires m.dx <= a <= |t.x| && m.dy <= b <= |t.y|
    ensures ShowX(t, s + [m], a) == ShowX(t, s, a - m.dx) + [Show(t.x[a - m.dx..a], t.par)]
    ensures ShowY(t, s + [m], b) == ShowY(t, s, b - m.dy) + [Show(t.y[b - m.dy..b], t.par)]
  {
    assert Init(s + [m]) == s && Last(s + [m]) == m;
    var xs, ys := XPieces(t.x, s + [m], a), YPieces(t.y, s + [m], b);
    assert Init(xs) == XPieces(t.x, s, a - m.dx) && Last(xs) == t.x[a - m.dx..a];
    assert Init(ys) == YPieces(t.y, s, b - m.dy) && Last(ys) == t.y[b - m.dy..b];
  }

  lemma ReversedSnoc<T>(s: seq<T>, x: T, rest: seq<T>)
    ensures rest + Reversed(s + [x]) == (rest + [x]) + Reversed(s)
  {
    assert Init(s + [x]) == s;
  }

  /** Appends what one move shows on either side. */
  method ShowMove(t: Task, m: Move, a: nat, b: nat, backX: seq<string>, backY: seq<string>)
    returns (moreX: seq<string>, moreY: seq<string>)
    requires m.dx <= a <= |t.x| && m.dy <= b <= |t.y|
    ensures moreX == backX + [Show(t.x[a - m.dx..a], t.par)]
    ensures moreY == backY + [Show(t.y[b - m.dy..b], t.par)]
  {
    if m.dx > 0 {
      moreX := backX + [Join(t.x[a - m.dx..a], t.par.sepInChar)];
    } else {
      moreX := backX + [t.par.nullChar];
    }
    if m.dy > 0 {
      moreY := backY + [Join(t.y[b - m.dy..b], t.par.sepInChar)];
    } else {
      moreY := backY + [t.par.nullChar];
    }
  }

  /** One more move read backwards. */
  lemma BackStep(t: Task, s: seq<Move>, m: Move, a: nat, b: nat, backX: seq<string>, backY: seq<string>)
    requires m.dx <= a <= |t.x| && m.dy <= b <= |t.y|
    ensures ShowX(t, s + [m], a) + Reversed(backX)
         == ShowX(t, s, a - m.dx) + Reversed(backX + [Show(t.x[a - m.dx..a], t.par)])
    ensures ShowY(t, s + [m], b) + Reversed(backY)
         == ShowY(t, s, b - m.dy) + Reversed(backY + [Show(t.y[b - m.dy..b], t.par)])
  {
    ShowSnoc(t, s, m, a, b);
    ReversedSnoc(backX, Show(t.x[a - m.dx..a], t.par), ShowX(t, s, a - m.dx));
    ReversedSnoc(backY, Show(t.y[b - m.dy..b], t.par), ShowY(t, s, b - m.dy));
  }

  /** What is left of s0 at rank r of cell (a, b), followed by what was read, shows s0. */
  ghost predicate ReadBack(t: Task, q: map<Cell, seq<Entry>>, segs: map<Cell, seq<seq<Move>>>, s0: seq<Move>,
                           a: nat, b: nat, r: nat, backX: seq<string>, backY: seq<string>)
  {
    && a <= |t.x| && b <= |t.y| && (a, b) in q && (a, b) in segs && r < |q[(a, b)]| && r < |segs[(a, b)]|
    && Linked(q, segs, a, b, q[(a, b)][r], segs[(a, b)][r])
    && ShowX(t, s0, |t.x|) == ShowX(t, segs[(a, b)][r], a) + Reversed(backX)
    && ShowY(t, s0, |t.y|) == ShowY(t, segs[(a, b)][r], b) + Reversed(backY)
  }

  /** Follows the links from the first entry of the last cell; every rank it meets is live. */
  method Backtrack(t: Task, q: map<Cell, seq<Entry>>, ghost segs: map<Cell, seq<seq<Move>>>)
    returns (alignX: seq<string>, alignY: seq<string>)
    requires LinkedTable(q, segs) && (|t.x|, |t.y|) in q && q[(|t.x|, |t.y|)] != []
    ensures |segs[(|t.x|, |t.y|)]| > 0
    ensures alignX == ShowX(t, segs[(|t.x|, |t.y|)][0], |t.x|)
    ensures alignY == ShowY(t, segs[(|t.x|, |t.y|)][0], |t.y|)
  {
    var a: nat, b: nat, r: nat := |t.x|, |t.y|, 0;
    var backX: seq<string>, backY: seq<string> := [], [];
    assert LinkedCell(q, segs, a, b, q[(a, b)], segs[(a, b)]);
    ghost var s0 := segs[(a, b)][0];
    ReadStart(t, q, segs);
    hide *;
    while a > 0 || b > 0
      invariant ReadBack(t, q, segs, s0, a, b, r, backX, backY)
      decreases a + b
    {
      a, b, r, backX, backY := ReadOne(t, q, segs, s0, a, b, r, backX, backY);
    }
    ReadAll(t, q, segs, s0, r, backX, backY);
    alignX, alignY := Reversed(backX), Reversed(backY);
  }

  lemma ReadStart(t: Task, q: map<Cell, seq<Entry>>, segs: map<Cell, seq<seq<Move>>>)
    requires LinkedTable(q, segs) && (|t.x|, |t.y|) in q && q[(|t.x|, |t.y|)] != []
    ensures (|t.x|, |t.y|) in segs && |segs[(|t.x|, |t.y|)]| > 0
    ensures ReadBack(t, q, segs, segs[(|t.x|, |t.y|)][0], |t.x|, |t.y|, 0, [], [])
  {
    hide ShowX, ShowY;
    LinkedAt(q, segs, (|t.x|, |t.y|), 0);
  }

  lemma ReadAll(t: Task, q: map<Cell, seq<Entry>>, segs: map<Cell, seq<seq<Move>>>, s0: seq<Move>, r: nat,
                backX: seq<string>, backY: seq<string>)
    requires ReadBack(t, q, segs, s0, 0, 0, r, backX, backY)
    ensures ShowX(t, s0, |t.x|) == Reversed(backX) && ShowY(t, s0, |t.y|) == Reversed(backY)
  {
  }

  /** One step along the links. */
  method ReadOne(t: Task, q: map<Cell, seq<Entry>>, ghost segs: map<Cell, seq<seq<Move>>>, ghost s0: seq<Move>,
                 a: nat, b: nat, r: nat, backX: seq<string>, backY: seq<string>)
    returns (c: nat, d: nat, rank: nat, moreX: seq<string>, moreY: seq<string>)
    requires LinkedTable(q, segs) && ReadBack(t, q, segs, s0, a, b, r, backX, backY) && (a > 0 || b > 0)
    ensures ReadBack(t, q, segs, s0, c, d, rank, moreX, moreY) && c + d < a + b
  {
    hide LinkedTable, ShowX, ShowY, Reversed, Show;
    var m := Move(q[(a, b)][r].backX, q[(a, b)][r].backY);
    c, d, rank := a - m.dx, b - m.dy, q[(a, b)][r].backR;
    BackStep(t, segs[(c, d)][rank], m, a, b, backX, backY);
    LinkedAt(q, segs, (c, d), rank);
    moreX, moreY := ShowMove(t, m, a, b, backX, backY);
  }

  lemma LinkedAt(q: map<Cell, seq<Entry>>, segs: map<Cell, seq<seq<Move>>>, c: Cell, r: nat)
    requires LinkedTable(q, segs) && c in q && r < |q[c]| && r < |segs[c]|
    ensures Linked(q, segs, c.0, c.1, q[c][r], segs[c][r])
  {
    assert LinkedCell(q, segs, c.0, c.1, q[c], segs[c]);
  }

  // ----- the alignments that come back -----

  /** Alignment k shows the legal segmentation found[k], whose total is scores[k]. */
  ghost predicate Shows(t: Task, ln: real -> real, scores: seq<real>, alignX: seq<seq<string>>,
                        alignY: seq<seq<string>>, found: seq<seq<Move>>)
  {
    && |scores| == |alignX| == |alignY| == |found|
    && forall k :: 0 <= k < |found| ==>
         && Reaches(t, found[k], |t.x|, |t.y|)
         && Total(t, ln, found[k], |t.x|, |t.y|) == Fin(scores[k])
         && alignX[k] == ShowX(t, found[k], |t.x|) && alignY[k] == ShowY(t, found[k], |t.y|)
  }

  /** scores are the best totals above LOWLOGPROB over all segmentations, best first, each
      segmentation counted once; there are nBest of them unless fewer exist. */
  ghost predicate IsNBest(t: Task, ln: real -> real, scores: seq<real>, found: seq<seq<Move>>)
  {
    && |scores| == |found| <= t.par.nBest
    && Distinct(found)
    && (forall k :: 0 <= k < |found| ==> scores[k] > LOWLOGPROB)
    && (forall j, k :: 0 <= j < k < |scores| ==> scores[j] >= scores[k])
    && (forall s :: Reaches(t, s, |t.x|, |t.y|) && s !in found && Proper(Total(t, ln, s, |t.x|, |t.y|)) ==>
         NoneBetter(t.par.nBest, scores, Total(t, ln, s, |t.x|, |t.y|)))
  }

  /** The alignments shown are those of the nBest best legal segmentations, with their totals. */
  ghost predicate ShowsNBest(t: Task, ln: real -> real, scores: seq<real>, alignX: seq<seq<string>>,
                             alignY: seq<seq<string>>)
  {
    exists found :: Shows(t, ln, scores, alignX, alignY, found) && IsNBest(t, ln, scores, found)
  }

  ghost predicate NoneBetter(n: nat, scores: seq<real>, score: Score)
  {
    |scores| == n && forall k :: 0 <= k < n ==> AtLeast(Fin(scores[k]), score)
  }

  ghost predicate Descending(cell: seq<Entry>)
  {
    forall i, j :: 0 <= i < j < |cell| ==> AtLeast(cell[i].score, cell[j].score)
  }

  /** After k pops the proper ones among the first k have been emitted; they come first. */
  ghost predicate Emitted(cell: seq<Entry>, cellSegs: seq<seq<Move>>, k: nat, scores: seq<real>, found: seq<seq<Move>>)
  {
    && k <= |cell| == |cellSegs| && |scores| == |found| <= k
    && found == cellSegs[..|found|]
    && (forall j :: 0 <= j < |found| ==> cell[j].score == Fin(scores[j]) && scores[j] > LOWLOGPROB)
    && (|found| < k ==> !Proper(cell[|found|].score))
  }

  lemma ProperAbove(cell: seq<Entry>, i: nat, j: nat)
    requires Descending(cell) && i <= j < |cell| && Proper(cell[j].score)
    ensures Proper(cell[i].score)
  {
    assert i < j ==> AtLeast(cell[i].score, cell[j].score);
  }

  lemma PrefixMember<T>(s: seq<T>, j: nat, p: nat)
    requires j < p <= |s|
    ensures s[j] in s[..p]
  {
    assert s[..p][j] == s[j];
  }

  lemma EmitNext(cell: seq<Entry>, cellSegs: seq<seq<Move>>, k: nat, scores: seq<real>, found: seq<seq<Move>>)
    requires Descending(cell) && Emitted(cell, cellSegs, k, scores, found) && k < |cell|
    ensures Proper(cell[k].score) ==> Emitted(cell, cellSegs, k + 1, scores + [cell[k].score.v], found + [cellSegs[k]])
    ensures !Proper(cell[k].score) ==> Emitted(cell, cellSegs, k + 1, scores, found)
  {
    if Proper(cell[k].score) {
      ProperAbove(cell, |found|, k);
      assert cellSegs[..k + 1] == cellSegs[..k] + [cellSegs[k]];
    }
  }

  lemma AllEmitted(t: Task, ln: real -> real, cell: seq<Entry>, cellSegs: seq<seq<Move>>, scores: seq<real>,
                   found: seq<seq<Move>>)
    requires GoodCell(t, ln, t.par.nBest, cell, cellSegs, |t.x|, |t.y|) && Descending(cell)
    requires Emitted(cell, cellSegs, |cell|, scores, found)
    ensures IsNBest(t, ln, scores, found)
  {
    hide Reaches, Total;
    forall s | Reaches(t, s, |t.x|, |t.y|) && s !in found && Proper(Total(t, ln, s, |t.x|, |t.y|))
      ensures NoneBetter(t.par.nBest, scores, Total(t, ln, s, |t.x|, |t.y|))
    {
      if s in cellSegs {
        var j :| 0 <= j < |cellSegs| && cellSegs[j] == s;
        NotEmitted(cell, cellSegs, scores, found, j);
      } else {
        DominatedEmitted(cell, cellSegs, t.par.nBest, scores, found, Total(t, ln, s, |t.x|, |t.y|));
      }
    }
    forall j, k | 0 <= j < k < |scores|
      ensures scores[j] >= scores[k]
    {
      assert AtLeast(cell[j].score, cell[k].score);
    }
  }

  lemma DominatedEmitted(cell: seq<Entry>, cellSegs: seq<seq<Move>>, n: nat, scores: seq<real>,
                         found: seq<seq<Move>>, score: Score)
    requires Dominated(cell, n, score) && Proper(score) && Emitted(cell, cellSegs, |cell|, scores, found)
    ensures NoneBetter(n, scores, score)
  {
    assert |found| == |cell|;
  }

  lemma NotEmitted(cell: seq<Entry>, cellSegs: seq<seq<Move>>, scores: seq<real>, found: seq<seq<Move>>, j: nat)
    requires Descending(cell) && Emitted(cell, cellSegs, |cell|, scores, found)
    requires j < |cell| && cellSegs[j] !in found
    ensures !Proper(cell[j].score)
  {
    var p: nat := |found|;
    if j < p {
      PrefixMember(cellSegs, j, p);
    } else if Proper(cell[j].score) {
      ProperAbove(cell, |found|, j);
    }
  }

  /** The last cell sorted stays good. */
  lemma SortedCellGood(t: Task, ln: real -> real, n: nat, cell: seq<Entry>, cellSegs: seq<seq<Move>>, idx: seq<nat>,
                       a: nat, b: nat)
    requires a <= |t.x| && b <= |t.y| && GoodCell(t, ln, n, cell, cellSegs, a, b)
    requires Permutation(idx, |cell|) && SortedBy(idx, ByScore(cell))
    ensures GoodCell(t, ln, n, Arranged(cell, idx), Arranged(cellSegs, idx), a, b) && Descending(Arranged(cell, idx))
  {
    hide Reaches, Total;
    forall s | Reaches(t, s, a, b) && s !in cellSegs
      ensures SomeBlock(cell, n, Total(t, ln, s, a, b))
    {
      assert HasBlock(cell, 0, n, Total(t, ln, s, a, b));
    }
    KeptCellGood(t, ln, n, cell, cellSegs, Arranged(cell, idx), idx, a, b);
    forall i, j | 0 <= i < j < |idx|
      ensures AtLeast(cell[idx[i]].score, cell[idx[j]].score)
    {
      assert ByScore(cell)(idx[i], idx[j]);
    }
  }

  /** Sorts the last cell. */
  method SortLast(t: Task, ln: real -> real, table: map<Cell, seq<Entry>>, ghost tableSegs: map<Cell, seq<seq<Move>>>)
    returns (q: map<Cell, seq<Entry>>, ghost segs: map<Cell, seq<seq<Move>>>)
    requires FilledTo(t, table, |t.x| + 1, 0) && GoodTable(t, ln, t.par.nBest, table, tableSegs)
    requires LinkedTable(table, tableSegs)
    ensures FilledTo(t, q, |t.x| + 1, 0) && LinkedTable(q, segs) && (|t.x|, |t.y|) in q && (|t.x|, |t.y|) in segs
    ensures GoodCell(t, ln, t.par.nBest, q[(|t.x|, |t.y|)], segs[(|t.x|, |t.y|)], |t.x|, |t.y|)
    ensures Descending(q[(|t.x|, |t.y|)])
  {
    var c := (|t.x|, |t.y|);
    assert c in table;
    var cell := table[c];
    var idx := SortedPositions(|cell|, ByScore(cell));
    ByScorePreorder(cell);
    SortedPositionsPermute(|cell|, ByScore(cell));
    assert GoodCell(t, ln, t.par.nBest, cell, tableSegs[c], c.0, c.1);
    assert LinkedCell(table, tableSegs, c.0, c.1, cell, tableSegs[c]);
    hide GoodTable, LinkedTable, LinkedCell, GoodCell, Arranged, Descending, SortedBy, ByScore, SortedPositions;
    SortedCellGood(t, ln, t.par.nBest, cell, tableSegs[c], idx, c.0, c.1);
    PickedLinked(table, tableSegs, c.0, c.1, cell, tableSegs[c], idx, Arranged(cell, idx));
    LinksStay(table, tableSegs, c.0, c.1, Arranged(cell, idx), Arranged(tableSegs[c], idx));
    q := table[c := Arranged(cell, idx)];
    segs := tableSegs[c := Arranged(tableSegs[c], idx)];
  }

  lemma ShowsSnoc(t: Task, ln: real -> real, scores: seq<real>, alignX: seq<seq<string>>, alignY: seq<seq<string>>,
                  found: seq<seq<Move>>, v: real, rowX: seq<string>, rowY: seq<string>, s: seq<Move>)
    requires Shows(t, ln, scores, alignX, alignY, found)
    requires Reaches(t, s, |t.x|, |t.y|) && Total(t, ln, s, |t.x|, |t.y|) == Fin(v)
    requires rowX == ShowX(t, s, |t.x|) && rowY == ShowY(t, s, |t.y|)
    ensures Shows(t, ln, scores + [v], alignX + [rowX], alignY + [rowY], found + [s])
  {
    hide Reaches, Total, ShowX, ShowY;
  }

  /** What holds after k pops. */
  ghost predicate Popped(t: Task, ln: real -> real, q: map<Cell, seq<Entry>>, segs: map<Cell, seq<seq<Move>>>,
                         cell: seq<Entry>, cellSegs: seq<seq<Move>>, k: nat, scores: seq<real>,
                         alignX: seq<seq<string>>, alignY: seq<seq<string>>, found: seq<seq<Move>>)
  {
    && FilledTo(t, q, |t.x| + 1, 0) && LinkedTable(q, segs)
    && (|t.x|, |t.y|) in q && (|t.x|, |t.y|) in segs
    && Traced(t, ln, cell, cellSegs, |t.x|, |t.y|) && Descending(cell) && k <= |cell|
    && q[(|t.x|, |t.y|)] == cell[k..] && segs[(|t.x|, |t.y|)] == cellSegs[k..]
    && Emitted(cell, cellSegs, k, scores, found) && Shows(t, ln, scores, alignX, alignY, found)
  }

  /** Emits the top entry of the last cell when it is a proper alignment. */
  method EmitTop(t: Task, ln: real -> real, q: map<Cell, seq<Entry>>, ghost segs: map<Cell, seq<seq<Move>>>,
                 ghost cell: seq<Entry>, ghost cellSegs: seq<seq<Move>>, ghost k: nat, scores0: seq<real>,
                 alignX0: seq<seq<string>>, alignY0: seq<seq<string>>, ghost found0: seq<seq<Move>>)
    returns (scores: seq<real>, alignX: seq<seq<string>>, alignY: seq<seq<string>>, ghost found: seq<seq<Move>>)
    requires Popped(t, ln, q, segs, cell, cellSegs, k, scores0, alignX0, alignY0, found0) && k < |cell|
    ensures Emitted(cell, cellSegs, k + 1, scores, found) && Shows(t, ln, scores, alignX, alignY, found)
  {
    var score := q[(|t.x|, |t.y|)][0].score;
    scores, alignX, alignY, found := scores0, alignX0, alignY0, found0;
    hide LinkedTable, Reaches, Total, ShowX, ShowY, Shows, Emitted, Descending;
    EmitNext(cell, cellSegs, k, scores, found);
    if Proper(score) {
      var rowX, rowY := Backtrack(t, q, segs);
      ShowsSnoc(t, ln, scores, alignX, alignY, found, score.v, rowX, rowY, cellSegs[k]);
      alignX, alignY := alignX + [rowX], alignY + [rowY];
      scores, found := scores + [score.v], found + [cellSegs[k]];
    }
  }

  /** Deletes the top entry of the last cell. */
  method PopLast(t: Task, ln: real -> real, q: map<Cell, seq<Entry>>, ghost segs: map<Cell, seq<seq<Move>>>,
                 ghost cell: seq<Entry>, ghost cellSegs: seq<seq<Move>>, ghost k: nat, ghost scores: seq<real>,
                 ghost alignX: seq<seq<string>>, ghost alignY: seq<seq<string>>, ghost found: seq<seq<Move>>)
    returns (q1: map<Cell, seq<Entry>>, ghost segs1: map<Cell, seq<seq<Move>>>)
    requires k < |cell| && exists oldScores, oldX, oldY, oldFound ::
               Popped(t, ln, q, segs, cell, cellSegs, k, oldScores, oldX, oldY, oldFound)
    requires Emitted(cell, cellSegs, k + 1, scores, found) && Shows(t, ln, scores, alignX, alignY, found)
    ensures Popped(t, ln, q1, segs1, cell, cellSegs, k + 1, scores, alignX, alignY, found)
  {
    var c := (|t.x|, |t.y|);
    assert LinkedCell(q, segs, c.0, c.1, q[c], segs[c]);
    assert LinkedCell(q, segs, c.0, c.1, q[c][1..], segs[c][1..]);
    assert cell[k..][1..] == cell[k + 1..] && cellSegs[k..][1..] == cellSegs[k + 1..];
    q1 := q[c := q[c][1..]];
    segs1 := segs[c := segs[c][1..]];
    hide LinkedTable, LinkedCell, Traced, Descending, Emitted, Shows;
    LinksStay(q, segs, c.0, c.1, q[c][1..], segs[c][1..]);
  }

  /** The filled table with its last cell sorted, before any pop. */
  method SortedTable(t: Task, ln: real -> real)
    returns (q: map<Cell, seq<Entry>>, ghost segs: map<Cell, seq<seq<Move>>>, ghost cell: seq<Entry>,
             ghost cellSegs: seq<seq<Move>>)
    ensures Popped(t, ln, q, segs, cell, cellSegs, 0, [], [], [], [])
    ensures (|t.x|, |t.y|) in q && q[(|t.x|, |t.y|)] == cell && |cell| <= t.par.nBest
    ensures GoodCell(t, ln, t.par.nBest, cell, cellSegs, |t.x|, |t.y|)
  {
    hide LinkedTable, GoodTable, Descending, GoodCell, Traced;
    q, segs := FillTable(t, ln);
    q, segs := SortLast(t, ln, q, segs);
    cell, cellSegs := q[(|t.x|, |t.y|)], segs[(|t.x|, |t.y|)];
    GoodCellTraced(t, ln, cell, cellSegs);
    assert cell[0..] == cell && cellSegs[0..] == cellSegs;
  }

  /** The n-best alignments of a pair: their scores, and the two rows of each. */
  method NViterbiAlign(t: Task, ln: real -> real)
    returns (scores: seq<real>, alignX: seq<seq<string>>, alignY: seq<seq<string>>)
    ensures ShowsNBest(t, ln, scores, alignX, alignY)
  {
    hide *;
    var q: map<Cell, seq<Entry>>;
    ghost var segs: map<Cell, seq<seq<Move>>>;
    ghost var cell, cellSegs;
    q, segs, cell, cellSegs := SortedTable(t, ln);
    scores, alignX, alignY := [], [], [];
    ghost var found: seq<seq<Move>> := [];
    var k := 0;
    while k < t.par.nBest && |q[(|t.x|, |t.y|)]| > 0
      invariant (|t.x|, |t.y|) in q && |q[(|t.x|, |t.y|)]| == |cell| - k
      invariant Popped(t, ln, q, segs, cell, cellSegs, k, scores, alignX, alignY, found)
    {
      scores, alignX, alignY, found :=
        EmitTop(t, ln, q, segs, cell, cellSegs, k, scores, alignX, alignY, found);
      q, segs := PopLast(t, ln, q, segs, cell, cellSegs, k, scores, alignX, alignY, found);
      k := k + 1;
      PoppedSize(t, ln, q, segs, cell, cellSegs, k, scores, alignX, alignY, found);
    }
    PoppedAll(t, ln, q, segs, cell, cellSegs, scores, alignX, alignY, found);
  }

  lemma PoppedSize(t: Task, ln: real -> real, q: map<Cell, seq<Entry>>, segs: map<Cell, seq<seq<Move>>>,
                   cell: seq<Entry>, cellSegs: seq<seq<Move>>, k: nat, scores: seq<real>,
                   alignX: seq<seq<string>>, alignY: seq<seq<string>>, found: seq<seq<Move>>)
    requires Popped(t, ln, q, segs, cell, cellSegs, k, scores, alignX, alignY, found)
    ensures (|t.x|, |t.y|) in q && |q[(|t.x|, |t.y|)]| == |cell| - k
  {
  }

  lemma PoppedAll(t: Task, ln: real -> real, q: map<Cell, seq<Entry>>, segs: map<Cell, seq<seq<Move>>>,
                  cell: seq<Entry>, cellSegs: seq<seq<Move>>, scores: seq<real>,
                  alignX: seq<seq<string>>, alignY: seq<seq<string>>, found: seq<seq<Move>>)
    requires Popped(t, ln, q, segs, cell, cellSegs, |cell|, scores, alignX, alignY, found)
    requires GoodCell(t, ln, t.par.nBest, cell, cellSegs, |t.x|, |t.y|)
    ensures ShowsNBest(t, ln, scores, alignX, alignY)
  {
    hide LinkedTable, GoodCell, Descending, Shows, Emitted, IsNBest;
    AllEmitted(t, ln, cell, cellSegs, scores, found);
  }

  lemma GoodCellTraced(t: Task, ln: real -> real, cell: seq<Entry>, cellSegs: seq<seq<Move>>)
    requires GoodCell(t, ln, t.par.nBest, cell, cellSegs, |t.x|, |t.y|)
    ensures |cell| == |cellSegs| && |cell| <= t.par.nBest
    ensures Traced(t, ln, cell, cellSegs, |t.x|, |t.y|)
  {
  }
}
