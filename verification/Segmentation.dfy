/** Joint segmentations of two token sequences: the moves a model allows, the move
    sequences that reach a grid cell, and the pieces they cut. */
module Segmentation {
  import opened Sequences
  import opened Distinctness

  /** Consumes dx tokens of x and dy tokens of y; a zero side is the null symbol. */
  datatype Move = Move(dx: nat, dy: nat)

  datatype Param = Param(maxX: nat, maxY: nat, delX: bool, delY: bool, eqMap: bool,
                         nullChar: string, sepInChar: string, nBest: nat)

  // ----- the moves, in the order the loops try them -----

  function XMoves(n: nat): seq<Move>
  {
    if n == 0 then [] else XMoves(n - 1) + [Move(n, 0)]
  }

  function YMoves(n: nat): seq<Move>
  {
    if n == 0 then [] else YMoves(n - 1) + [Move(0, n)]
  }

  /** Moves that take i tokens of x and up to n of y; eq allows equal lengths above 1. */
  function RowMoves(i: nat, n: nat, eq: bool): seq<Move>
  {
    if n == 0 then []
    else RowMoves(i, n - 1, eq) + (if !eq && i == n && i > 1 then [] else [Move(i, n)])
  }

  function PairMoves(m: nat, n: nat, eq: bool): seq<Move>
  {
    if m == 0 then [] else PairMoves(m - 1, n, eq) + RowMoves(m, n, eq)
  }

  function Moves(par: Param, eq: bool): seq<Move>
  {
    XMoves(if par.delX then par.maxX else 0) + YMoves(if par.delY then par.maxY else 0)
    + PairMoves(par.maxX, par.maxY, eq)
  }

  /** Which moves a parameter setting allows. */
  predicate Allowed(par: Param, eq: bool, m: Move)
  {
    || (m.dy == 0 && par.delX && 1 <= m.dx <= par.maxX)
    || (m.dx == 0 && par.delY && 1 <= m.dy <= par.maxY)
    || (1 <= m.dx <= par.maxX && 1 <= m.dy <= par.maxY && (eq || m.dx != m.dy || m.dx == 1))
  }

  lemma {:induction false} DeletionMoves(n: nat)
    ensures forall m :: m in XMoves(n) <==> m.dy == 0 && 1 <= m.dx <= n
    ensures forall m :: m in YMoves(n) <==> m.dx == 0 && 1 <= m.dy <= n
    ensures Distinct(XMoves(n)) && Distinct(YMoves(n))
  {
    if n > 0 {
      DeletionMoves(n - 1);
      SnocDistinct(XMoves(n - 1), Move(n, 0));
      SnocDistinct(YMoves(n - 1), Move(0, n));
    }
  }

  lemma {:induction false} RowMovesAre(i: nat, n: nat, eq: bool)
    ensures forall m :: m in RowMoves(i, n, eq) <==>
              m.dx == i && 1 <= m.dy <= n && (eq || m.dx != m.dy || m.dx <= 1)
    ensures Distinct(RowMoves(i, n, eq))
  {
    if n > 0 {
      RowMovesAre(i, n - 1, eq);
      SnocDistinct(RowMoves(i, n - 1, eq), Move(i, n));
    }
  }

  lemma {:induction false} PairMovesAre(k: nat, n: nat, eq: bool)
    ensures forall m :: m in PairMoves(k, n, eq) <==>
              1 <= m.dx <= k && 1 <= m.dy <= n && (eq || m.dx != m.dy || m.dx == 1)
    ensures Distinct(PairMoves(k, n, eq))
  {
    if k > 0 {
      PairMovesAre(k - 1, n, eq);
      RowMovesAre(k, n, eq);
      ConcatDistinct(PairMoves(k - 1, n, eq), RowMoves(k, n, eq));
    }
  }

  /** The loops try every allowed move, and each once. */
  lemma MovesAre(par: Param, eq: bool)
    ensures forall m :: m in Moves(par, eq) <==> Allowed(par, eq, m)
    ensures forall m :: m in Moves(par, eq) <==>
              || (m.dy == 0 && par.delX && 1 <= m.dx <= par.maxX)
              || (m.dx == 0 && par.delY && 1 <= m.dy <= par.maxY)
              || (1 <= m.dx <= par.maxX && 1 <= m.dy <= par.maxY && !(m.dx == m.dy && m.dx > 1 && !eq))
    ensures Distinct(Moves(par, eq))
  {
    var nx, ny := if par.delX then par.maxX else 0, if par.delY then par.maxY else 0;
    DeletionMoves(nx);
    DeletionMoves(ny);
    PairMovesAre(par.maxX, par.maxY, eq);
    ConcatDistinct(XMoves(nx), YMoves(ny));
    ConcatDistinct(XMoves(nx) + YMoves(ny), PairMoves(par.maxX, par.maxY, eq));
  }

  // ----- segmentations -----

  /** m can be the last move into cell (a, b). */
  predicate Fits(m: Move, a: nat, b: nat)
  {
    0 < m.dx + m.dy && m.dx <= a && m.dy <= b
  }

  /** The moves of ms that fit, in order. */
  function Fitting(ms: seq<Move>, a: nat, b: nat): seq<Move>
  {
    if ms == [] then []
    else Fitting(Init(ms), a, b) + (if Fits(Last(ms), a, b) then [Last(ms)] else [])
  }

  lemma {:induction false} FittingConcat(p: seq<Move>, q: seq<Move>, a: nat, b: nat)
    ensures Fitting(p + q, a, b) == Fitting(p, a, b) + Fitting(q, a, b)
  {
    if q == [] {
      assert p + q == p;
    } else {
      FittingConcat(p, Init(q), a, b);
      assert Init(p + q) == p + Init(q);
    }
  }

  lemma {:induction false} NoneFitting(ms: seq<Move>, a: nat, b: nat)
    requires forall m :: m in ms ==> !Fits(m, a, b)
    ensures Fitting(ms, a, b) == []
  {
    if ms != [] {
      NoneFitting(Init(ms), a, b);
    }
  }

  lemma {:induction false} FittingIsFiltered(ms: seq<Move>, a: nat, b: nat)
    ensures forall m :: m in Fitting(ms, a, b) <==> m in ms && Fits(m, a, b)
    ensures Distinct(ms) ==> Distinct(Fitting(ms, a, b))
  {
    if ms != [] {
      assert ms == Init(ms) + [Last(ms)];
      FittingIsFiltered(Init(ms), a, b);
    }
  }

  /** Past the cell's own coordinates no move fits, so the loops may stop there. */
  lemma {:induction false} DeletionTail(n: nat, k: nat, a: nat, b: nat)
    requires k <= n
    ensures k >= a ==> Fitting(XMoves(n), a, b) == Fitting(XMoves(k), a, b)
    ensures k >= b ==> Fitting(YMoves(n), a, b) == Fitting(YMoves(k), a, b)
  {
    if k < n {
      DeletionTail(n - 1, k, a, b);
    }
  }

  /** One more step of the row loop. */
  lemma RowStep(i: nat, n: nat, eq: bool, a: nat, b: nat)
    requires n > 0
    ensures Fitting(RowMoves(i, n, eq), a, b) ==
            Fitting(RowMoves(i, n - 1, eq), a, b)
            + (if (eq || i != n || i <= 1) && Fits(Move(i, n), a, b) then [Move(i, n)] else [])
  {
    if !eq && i == n && i > 1 {
      assert RowMoves(i, n, eq) == RowMoves(i, n - 1, eq);
    } else {
      assert Init(RowMoves(i, n, eq)) == RowMoves(i, n - 1, eq);
    }
  }

  lemma {:induction false} RowTail(i: nat, n: nat, k: nat, eq: bool, a: nat, b: nat)
    requires k == n || b <= k <= n
    ensures Fitting(RowMoves(i, n, eq), a, b) == Fitting(RowMoves(i, k, eq), a, b)
  {
    if k < n {
      RowTail(i, n - 1, k, eq, a, b);
      RowStep(i, n, eq, a, b);
    }
  }

  lemma {:induction false} PairTail(m: nat, k: nat, n: nat, eq: bool, a: nat, b: nat)
    requires k == m || a <= k <= m
    ensures Fitting(PairMoves(m, n, eq), a, b) == Fitting(PairMoves(k, n, eq), a, b)
  {
    hide Fitting, RowMoves;
    if k < m {
      PairTail(m - 1, k, n, eq, a, b);
      RowMovesAre(m, n, eq);
      NoneFitting(RowMoves(m, n, eq), a, b);
      FittingConcat(PairMoves(m - 1, n, eq), RowMoves(m, n, eq), a, b);
    }
  }

  /** The loops over deletions of x, deletions of y and pairs, for one cell. */
  method MovesInto(par: Param, eq: bool, a: nat, b: nat) returns (ms: seq<Move>)
    ensures ms == Fitting(Moves(par, eq), a, b)
  {
    var nx, ny := if par.delX then par.maxX else 0, if par.delY then par.maxY else 0;
    ms := [];
    if a > 0 && par.delX {
      ms := XMovesInto(par.maxX, a, b);
    }
    DeletionTail(nx, 0, a, b);
    ghost var afterX := ms;
    assert afterX == Fitting(XMoves(nx), a, b);
    if b > 0 && par.delY {
      var more := YMovesInto(par.maxY, a, b);
      ms := ms + more;
    }
    DeletionTail(ny, 0, a, b);
    ghost var afterY := ms;
    assert afterY == Fitting(XMoves(nx), a, b) + Fitting(YMoves(ny), a, b);
    if a > 0 && b > 0 {
      var more := PairMovesInto(par.maxX, par.maxY, eq, a, b);
      ms := ms + more;
    } else {
      PairMovesAre(par.maxX, par.maxY, eq);
      NoneFitting(PairMoves(par.maxX, par.maxY, eq), a, b);
    }
    FittingConcat(XMoves(nx), YMoves(ny), a, b);
    FittingConcat(XMoves(nx) + YMoves(ny), PairMoves(par.maxX, par.maxY, eq), a, b);
  }

  method XMovesInto(maxX: nat, a: nat, b: nat) returns (ms: seq<Move>)
    ensures ms == Fitting(XMoves(maxX), a, b)
  {
    ms := [];
    var i := 1;
    while i <= maxX && a - i >= 0
      invariant 1 <= i && i - 1 <= maxX && i - 1 <= a
      invariant ms == Fitting(XMoves(i - 1), a, b)
    {
      ms := ms + [Move(i, 0)];
      assert Init(XMoves(i)) == XMoves(i - 1);
      i := i + 1;
    }
    DeletionTail(maxX, i - 1, a, b);
  }

  method YMovesInto(maxY: nat, a: nat, b: nat) returns (ms: seq<Move>)
    ensures ms == Fitting(YMoves(maxY), a, b)
  {
    ms := [];
    var j := 1;
    while j <= maxY && b - j >= 0
      invariant 1 <= j && j - 1 <= maxY && j - 1 <= b
      invariant ms == Fitting(YMoves(j - 1), a, b)
    {
      ms := ms + [Move(0, j)];
      assert Init(YMoves(j)) == YMoves(j - 1);
      j := j + 1;
    }
    DeletionTail(maxY, j - 1, a, b);
  }

  method PairMovesInto(maxX: nat, maxY: nat, eq: bool, a: nat, b: nat) returns (ms: seq<Move>)
    ensures ms == Fitting(PairMoves(maxX, maxY, eq), a, b)
  {
    ms := [];
    var i := 1;
    while i <= maxX && a - i >= 0
      invariant 1 <= i && i - 1 <= maxX && i - 1 <= a
      invariant ms == Fitting(PairMoves(i - 1, maxY, eq), a, b)
    {
      var row := RowMovesInto(i, maxY, eq, a, b);
      FittingConcat(PairMoves(i - 1, maxY, eq), RowMoves(i, maxY, eq), a, b);
      ms := ms + row;
      i := i + 1;
    }
    PairTail(maxX, i - 1, maxY, eq, a, b);
  }

  method RowMovesInto(i: nat, maxY: nat, eq: bool, a: nat, b: nat) returns (ms: seq<Move>)
    requires 0 < i <= a
    ensures ms == Fitting(RowMoves(i, maxY, eq), a, b)
  {
    ms := [];
    var j := 1;
    while j <= maxY && b - j >= 0
      invariant 1 <= j && j - 1 <= maxY && j - 1 <= b
      invariant ms == Fitting(RowMoves(i, j - 1, eq), a, b)
    {
      RowStep(i, j, eq, a, b);
      if !(!eq && i == j && i > 1) {
        ms := ms + [Move(i, j)];
      }
      j := j + 1;
    }
    RowTail(i, maxY, j - 1, eq, a, b);
  }

  /** The moves s, all from ms, lead from cell (0, 0) to cell (a, b). */
  predicate Legal(ms: seq<Move>, s: seq<Move>, a: nat, b: nat)
    decreases |s|
  {
    if s == [] then a == 0 && b == 0
    else
      var m := Last(s);
      m in ms && Fits(m, a, b) && Legal(ms, Init(s), a - m.dx, b - m.dy)
  }

  lemma LegalSnoc(ms: seq<Move>, s: seq<Move>, m: Move, a: nat, b: nat)
    requires m in ms && Fits(m, a, b) && Legal(ms, s, a - m.dx, b - m.dy)
    ensures Legal(ms, s + [m], a, b)
  {
    assert Init(s + [m]) == s && Last(s + [m]) == m;
  }

  /** The stretches of xs that the moves into (a, b) consume on the x side (y side). */
  function XPieces<T>(xs: seq<T>, s: seq<Move>, a: nat): seq<seq<T>>
    requires a <= |xs|
    decreases |s|
  {
    if s == [] || Last(s).dx > a then []
    else XPieces(xs, Init(s), a - Last(s).dx) + [xs[a - Last(s).dx..a]]
  }

  function YPieces<T>(ys: seq<T>, s: seq<Move>, b: nat): seq<seq<T>>
    requires b <= |ys|
    decreases |s|
  {
    if s == [] || Last(s).dy > b then []
    else YPieces(ys, Init(s), b - Last(s).dy) + [ys[b - Last(s).dy..b]]
  }

  function Flatten<T>(ps: seq<seq<T>>): seq<T>
  {
    if ps == [] then [] else Flatten(Init(ps)) + Last(ps)
  }

  /** The pieces of a legal segmentation put together again are the two sequences. */
  lemma {:induction false} PiecesRoundTrip<T>(ms: seq<Move>, s: seq<Move>, xs: seq<T>, a: nat, ys: seq<T>, b: nat)
    requires a <= |xs| && b <= |ys| && Legal(ms, s, a, b)
    ensures |XPieces(xs, s, a)| == |s| && Flatten(XPieces(xs, s, a)) == xs[..a]
    ensures |YPieces(ys, s, b)| == |s| && Flatten(YPieces(ys, s, b)) == ys[..b]
    decreases |s|
  {
    if s != [] {
      var m := Last(s);
      PiecesRoundTrip(ms, Init(s), xs, a - m.dx, ys, b - m.dy);
      assert Init(XPieces(xs, s, a)) == XPieces(xs, Init(s), a - m.dx);
      assert Init(YPieces(ys, s, b)) == YPieces(ys, Init(s), b - m.dy);
      assert xs[..a] == xs[..a - m.dx] + xs[a - m.dx..a];
      assert ys[..b] == ys[..b - m.dy] + ys[b - m.dy..b];
    }
  }
}
