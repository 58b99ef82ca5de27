/** One-cell and one-row steps of the forward, backward and expectation loops. */
module AlignmentSweeps {
  import opened Sequences
  import opened Segmentation
  import opened NBestAlignment
  import opened AlignmentSums
  import opened AlignmentFlow
  import opened AlignmentCounts

  // ----- only the moves that fit matter -----

  lemma {:induction false} InSumFitting(t: Task, a: nat, b: nat, ms: seq<Move>)
    requires a <= |t.x| && b <= |t.y|
    ensures InSum(t, a, b, Fitting(ms, a, b)) == InSum(t, a, b, ms)
  {
    hide Alpha, ProbAt;
    if ms != [] {
      InSumFitting(t, a, b, Init(ms));
      if Fits(Last(ms), a, b) {
        var fit := Fitting(ms, a, b);
        assert Init(fit) == Fitting(Init(ms), a, b) && Last(fit) == Last(ms);
      } else {
        assert Fitting(ms, a, b) == Fitting(Init(ms), a, b);
      }
    }
  }

  lemma {:induction false} OutSumFitting(t: Task, a: nat, b: nat, ms: seq<Move>)
    requires a <= |t.x| && b <= |t.y|
    ensures OutSum(t, a, b, Fitting(ms, |t.x| - a, |t.y| - b)) == OutSum(t, a, b, ms)
  {
    hide Beta, ProbAt;
    if ms != [] {
      OutSumFitting(t, a, b, Init(ms));
      assert Leaves(t, Last(ms), a, b) == Fits(Last(ms), |t.x| - a, |t.y| - b);
      if Fits(Last(ms), |t.x| - a, |t.y| - b) {
        var fit := Fitting(ms, |t.x| - a, |t.y| - b);
        assert Init(fit) == Fitting(Init(ms), |t.x| - a, |t.y| - b) && Last(fit) == Last(ms);
      } else {
        assert Fitting(ms, |t.x| - a, |t.y| - b) == Fitting(Init(ms), |t.x| - a, |t.y| - b);
      }
    }
  }

  lemma {:induction false} UpdatesFitting(t: Task, total: real, a: nat, b: nat, ms: seq<Move>)
    requires a <= |t.x| && b <= |t.y| && total != 0.0
    ensures CellUpdates(t, total, a, b, Fitting(ms, a, b)) == CellUpdates(t, total, a, b, ms)
  {
    hide InMass, MoveKey;
    if ms != [] {
      UpdatesFitting(t, total, a, b, Init(ms));
      if Fits(Last(ms), a, b) {
        var fit := Fitting(ms, a, b);
        assert Init(fit) == Fitting(Init(ms), a, b) && Last(fit) == Last(ms);
      } else {
        assert Fitting(ms, a, b) == Fitting(Init(ms), a, b);
        assert CellUpdates(t, total, a, b, ms) == CellUpdates(t, total, a, b, Init(ms));
      }
    }
  }

  // ----- one more move -----

  ghost function InTerm(t: Task, a: nat, b: nat, m: Move): real
    requires a <= |t.x| && b <= |t.y| && Fits(m, a, b)
  {
    ProbAt(t, a, b, m) * Alpha(t, a - m.dx, b - m.dy)
  }

  ghost function OutTerm(t: Task, a: nat, b: nat, m: Move): real
    requires a <= |t.x| && b <= |t.y| && Leaves(t, m, a, b)
  {
    ProbAt(t, a + m.dx, b + m.dy, m) * Beta(t, a + m.dx, b + m.dy)
  }

  lemma InSumNext(t: Task, a: nat, b: nat, ms: seq<Move>, k: nat)
    requires a <= |t.x| && b <= |t.y| && k < |ms| && Fits(ms[k], a, b)
    ensures InSum(t, a, b, ms[..k + 1]) == InSum(t, a, b, ms[..k]) + InTerm(t, a, b, ms[k])
  {
    hide Alpha, ProbAt;
    assert Init(ms[..k + 1]) == ms[..k] && Last(ms[..k + 1]) == ms[k];
  }

  lemma OutSumNext(t: Task, a: nat, b: nat, ms: seq<Move>, k: nat)
    requires a <= |t.x| && b <= |t.y| && k < |ms| && Leaves(t, ms[k], a, b)
    ensures OutSum(t, a, b, ms[..k + 1]) == OutSum(t, a, b, ms[..k]) + OutTerm(t, a, b, ms[k])
  {
    hide Beta, ProbAt;
    assert Init(ms[..k + 1]) == ms[..k] && Last(ms[..k + 1]) == ms[k];
  }

  lemma UpdatesNext(t: Task, total: real, a: nat, b: nat, ms: seq<Move>, k: nat)
    requires a <= |t.x| && b <= |t.y| && total != 0.0 && k < |ms| && Fits(ms[k], a, b)
    ensures CellUpdates(t, total, a, b, ms[..k + 1])
         == CellUpdates(t, total, a, b, ms[..k])
            + [Update(MoveKey(t, a, b, ms[k]), ms[k], InMass(t, ms[k], a, b) / total)]
  {
    hide InMass, MoveKey;
    assert Init(ms[..k + 1]) == ms[..k] && Last(ms[..k + 1]) == ms[k];
  }

  lemma AddAllSnoc(counts: map<Pair, real>, us: seq<Update>, u: Update)
    ensures AddAll(counts, us + [u]) == AddOne(AddAll(counts, us), u)
  {
    assert Init(us + [u]) == us;
  }

  lemma {:induction false} AddAllConcat(counts: map<Pair, real>, us: seq<Update>, vs: seq<Update>)
    ensures AddAll(counts, us + vs) == AddAll(AddAll(counts, us), vs)
  {
    hide AddOne;
    if vs == [] {
      assert us + vs == us;
    } else {
      AddAllConcat(counts, us, Init(vs));
      assert Init(us + vs) == us + Init(vs);
    }
  }

  // ----- the tables -----

  /** The forward table is right in the cells before (a, b). */
  ghost predicate AlphaTo(t: Task, alpha: map<Cell, real>, a: nat, b: nat)
  {
    forall c: Cell {:trigger c in alpha} {:trigger alpha[c]} ::
      c.0 <= |t.x| && c.1 <= |t.y| && (c.0 < a || (c.0 == a && c.1 < b)) ==> c in alpha && alpha[c] == Alpha(t, c.0, c.1)
  }

  /** The backward table is right in the cells after (a, b). */
  ghost predicate BetaFrom(t: Task, beta: map<Cell, real>, a: int, b: int)
  {
    forall c: Cell {:trigger c in beta} {:trigger beta[c]} ::
      c.0 <= |t.x| && c.1 <= |t.y| && (c.0 > a || (c.0 == a && c.1 > b)) ==> c in beta && beta[c] == Beta(t, c.0, c.1)
  }

  lemma ForwardMoves(t: Task, a: nat, b: nat, ms: seq<Move>)
    requires a <= |t.x| && b <= |t.y| && ms == Fitting(EMMoves(t), a, b)
    ensures forall k {:trigger ms[k]} :: 0 <= k < |ms| ==> Fits(ms[k], a, b)
    ensures InSum(t, a, b, ms[..0]) == 0.0
    ensures Alpha(t, a, b) == (if a > 0 || b > 0 then 0.0 else 1.0) + InSum(t, a, b, ms[..|ms|])
  {
    hide EMMoves, ProbAt;
    FittingIsFiltered(EMMoves(t), a, b);
    InSumFitting(t, a, b, EMMoves(t));
    NothingInto(t, EMMoves(t));
    assert ms[..|ms|] == ms;
  }

  /** Sums what the moves bring into one cell. */
  method ForwardCell(t: Task, alpha: map<Cell, real>, a: nat, b: nat) returns (v: real)
    requires a <= |t.x| && b <= |t.y| && AlphaTo(t, alpha, a, b)
    ensures v == Alpha(t, a, b)
  {
    var ms := MovesInto(t.par, true, a, b);
    v := ForwardSum(t, alpha, a, b, ms);
  }

  method ForwardSum(t: Task, alpha: map<Cell, real>, a: nat, b: nat, ms: seq<Move>) returns (v: real)
    requires a <= |t.x| && b <= |t.y| && AlphaTo(t, alpha, a, b) && ms == Fitting(EMMoves(t), a, b)
    ensures v == Alpha(t, a, b)
  {
    hide *;
    ForwardMoves(t, a, b, ms);
    v := if a > 0 || b > 0 then 0.0 else 1.0;
    ghost var start := v;
    var k := 0;
    while k < |ms|
      invariant k <= |ms|
      invariant v == start + InSum(t, a, b, ms[..k])
    {
      InSumNext(t, a, b, ms, k);
      ForwardTermIs(t, alpha, a, b, ms[k]);
      v := v + ForwardTerm(t, alpha, a, b, ms[k]);
      k := k + 1;
    }
  }

  function ForwardTerm(t: Task, alpha: map<Cell, real>, a: nat, b: nat, m: Move): real
    requires a <= |t.x| && b <= |t.y| && Fits(m, a, b) && (a - m.dx, b - m.dy) in alpha
  {
    ProbAt(t, a, b, m) * alpha[(a - m.dx, b - m.dy)]
  }

  lemma ForwardTermIs(t: Task, alpha: map<Cell, real>, a: nat, b: nat, m: Move)
    requires a <= |t.x| && b <= |t.y| && AlphaTo(t, alpha, a, b) && Fits(m, a, b)
    ensures (a - m.dx, b - m.dy) in alpha && ForwardTerm(t, alpha, a, b, m) == InTerm(t, a, b, m)
  {
    hide Alpha, ProbAt, AlphaTo;
    CellBefore(t, alpha, a, b, m);
  }

  lemma CellBefore(t: Task, alpha: map<Cell, real>, a: nat, b: nat, m: Move)
    requires a <= |t.x| && b <= |t.y| && AlphaTo(t, alpha, a, b) && Fits(m, a, b)
    ensures (a - m.dx, b - m.dy) in alpha
    ensures alpha[(a - m.dx, b - m.dy)] == Alpha(t, a - m.dx, b - m.dy)
  {
    hide Alpha;
    var c: Cell := (a - m.dx, b - m.dy);
    assert c in alpha;
  }

  lemma CellAfter(t: Task, beta: map<Cell, real>, a: nat, b: nat, m: Move)
    requires a <= |t.x| && b <= |t.y| && BetaFrom(t, beta, a, b) && Leaves(t, m, a, b)
    ensures (a + m.dx, b + m.dy) in beta
    ensures beta[(a + m.dx, b + m.dy)] == Beta(t, a + m.dx, b + m.dy)
  {
    hide Beta;
    var c: Cell := (a + m.dx, b + m.dy);
    assert c in beta;
  }

  lemma BackwardMoves(t: Task, a: nat, b: nat, ms: seq<Move>)
    requires a <= |t.x| && b <= |t.y| && ms == Fitting(EMMoves(t), |t.x| - a, |t.y| - b)
    ensures forall k {:trigger ms[k]} :: 0 <= k < |ms| ==> Leaves(t, ms[k], a, b)
    ensures OutSum(t, a, b, ms[..0]) == 0.0
    ensures Beta(t, a, b) == (if a < |t.x| || b < |t.y| then 0.0 else 1.0) + OutSum(t, a, b, ms[..|ms|])
  {
    hide EMMoves, ProbAt;
    FittingIsFiltered(EMMoves(t), |t.x| - a, |t.y| - b);
    OutSumFitting(t, a, b, EMMoves(t));
    NothingOutOf(t, EMMoves(t));
    assert ms[..|ms|] == ms;
    forall k | 0 <= k < |ms|
      ensures Leaves(t, ms[k], a, b)
    {
      assert ms[k] in ms;
    }
  }

  /** Sums what the moves out of one cell lead to. */
  method BackwardCell(t: Task, beta: map<Cell, real>, a: nat, b: nat) returns (v: real)
    requires a <= |t.x| && b <= |t.y| && BetaFrom(t, beta, a, b)
    ensures v == Beta(t, a, b)
  {
    var ms := MovesInto(t.par, true, |t.x| - a, |t.y| - b);
    v := BackwardSum(t, beta, a, b, ms);
  }

  method BackwardSum(t: Task, beta: map<Cell, real>, a: nat, b: nat, ms: seq<Move>) returns (v: real)
    requires a <= |t.x| && b <= |t.y| && BetaFrom(t, beta, a, b)
    requires ms == Fitting(EMMoves(t), |t.x| - a, |t.y| - b)
    ensures v == Beta(t, a, b)
  {
    hide *;
    BackwardMoves(t, a, b, ms);
    v := if a < |t.x| || b < |t.y| then 0.0 else 1.0;
    ghost var start := v;
    var k := 0;
    while k < |ms|
      invariant k <= |ms|
      invariant v == start + OutSum(t, a, b, ms[..k])
    {
      OutSumNext(t, a, b, ms, k);
      BackwardTermIs(t, beta, a, b, ms[k]);
      v := v + BackwardTerm(t, beta, a, b, ms[k]);
      k := k + 1;
    }
  }

  function BackwardTerm(t: Task, beta: map<Cell, real>, a: nat, b: nat, m: Move): real
    requires a <= |t.x| && b <= |t.y| && Leaves(t, m, a, b) && (a + m.dx, b + m.dy) in beta
  {
    ProbAt(t, a + m.dx, b + m.dy, m) * beta[(a + m.dx, b + m.dy)]
  }

  lemma BackwardTermIs(t: Task, beta: map<Cell, real>, a: nat, b: nat, m: Move)
    requires a <= |t.x| && b <= |t.y| && BetaFrom(t, beta, a, b) && Leaves(t, m, a, b)
    ensures (a + m.dx, b + m.dy) in beta && BackwardTerm(t, beta, a, b, m) == OutTerm(t, a, b, m)
  {
    hide Beta, ProbAt, BetaFrom;
    CellAfter(t, beta, a, b, m);
  }

  method ForwardEval(t: Task) returns (alpha: map<Cell, real>)
    ensures AlphaTo(t, alpha, |t.x| + 1, 0)
  {
    hide Alpha;
    alpha := map[];
    var a := 0;
    while a <= |t.x|
      invariant a <= |t.x| + 1 && AlphaTo(t, alpha, a, 0)
    {
      var b := 0;
      while b <= |t.y|
        invariant b <= |t.y| + 1 && AlphaTo(t, alpha, a, b)
      {
        var v := ForwardCell(t, alpha, a, b);
        alpha := alpha[(a, b) := v];
        b := b + 1;
      }
      a := a + 1;
    }
  }

  method BackwardEval(t: Task) returns (beta: map<Cell, real>)
    ensures BetaFrom(t, beta, -1, |t.y|)
  {
    hide Beta;
    beta := map[];
    var a := |t.x|;
    while a >= 0
      invariant -1 <= a <= |t.x| && BetaFrom(t, beta, a, |t.y|)
    {
      var b := |t.y|;
      while b >= 0
        invariant -1 <= b <= |t.y| && BetaFrom(t, beta, a, b)
      {
        var v := BackwardCell(t, beta, a, b);
        beta := beta[(a, b) := v];
        b := b - 1;
      }
      a := a - 1;
    }
  }

  lemma WholeTables(t: Task, alpha: map<Cell, real>, beta: map<Cell, real>, a: nat, b: nat)
    requires AlphaTo(t, alpha, |t.x| + 1, 0) && BetaFrom(t, beta, -1, |t.y|) && a <= |t.x| && b <= |t.y|
    ensures (a, b) in alpha && alpha[(a, b)] == Alpha(t, a, b)
    ensures (a, b) in beta && beta[(a, b)] == Beta(t, a, b)
  {
    hide Alpha, Beta;
    var c: Cell := (a, b);
    assert c in alpha && c in beta;
  }

  lemma CountMoves(t: Task, total: real, a: nat, b: nat, ms: seq<Move>, counts0: map<Pair, real>)
    requires a <= |t.x| && b <= |t.y| && total != 0.0 && ms == Fitting(EMMoves(t), a, b)
    ensures forall k {:trigger ms[k]} :: 0 <= k < |ms| ==> Fits(ms[k], a, b)
    ensures AddAll(counts0, CellUpdates(t, total, a, b, ms[..0])) == counts0
    ensures CellUpdates(t, total, a, b, ms[..|ms|]) == CellUpdates(t, total, a, b, EMMoves(t))
  {
    hide EMMoves, InMass, MoveKey;
    FittingIsFiltered(EMMoves(t), a, b);
    UpdatesFitting(t, total, a, b, EMMoves(t));
    assert ms[..|ms|] == ms;
  }

  /** Adds the expected counts of the moves into one cell. */
  method CountCell(t: Task, alpha: map<Cell, real>, beta: map<Cell, real>, total: real, a: nat, b: nat,
                   counts0: map<Pair, real>) returns (counts: map<Pair, real>)
    requires a <= |t.x| && b <= |t.y| && total != 0.0
    requires AlphaTo(t, alpha, |t.x| + 1, 0) && BetaFrom(t, beta, -1, |t.y|)
    ensures counts == AddAll(counts0, CellUpdates(t, total, a, b, EMMoves(t)))
  {
    var ms := MovesInto(t.par, true, a, b);
    assert ms == Fitting(EMMoves(t), a, b);
    hide *;
    CountMoves(t, total, a, b, ms, counts0);
    counts := counts0;
    var k := 0;
    while k < |ms|
      invariant k <= |ms|
      invariant counts == AddAll(counts0, CellUpdates(t, total, a, b, ms[..k]))
    {
      UpdatesNext(t, total, a, b, ms, k);
      CountOfIs(t, alpha, beta, total, a, b, ms[k]);
      var u := CountOf(t, alpha, beta, total, a, b, ms[k]);
      AddAllSnoc(counts0, CellUpdates(t, total, a, b, ms[..k]), u);
      counts := CountUp(counts, u);
      k := k + 1;
    }
  }

  /** The update for one move. */
  function CountOf(t: Task, alpha: map<Cell, real>, beta: map<Cell, real>, total: real, a: nat, b: nat, m: Move): Update
    requires a <= |t.x| && b <= |t.y| && total != 0.0 && Fits(m, a, b) && (a - m.dx, b - m.dy) in alpha && (a, b) in beta
  {
    Update(MoveKey(t, a, b, m), m, alpha[(a - m.dx, b - m.dy)] * ProbAt(t, a, b, m) * beta[(a, b)] / total)
  }

  lemma CountOfIs(t: Task, alpha: map<Cell, real>, beta: map<Cell, real>, total: real, a: nat, b: nat, m: Move)
    requires a <= |t.x| && b <= |t.y| && total != 0.0 && Fits(m, a, b)
    requires AlphaTo(t, alpha, |t.x| + 1, 0) && BetaFrom(t, beta, -1, |t.y|)
    ensures (a - m.dx, b - m.dy) in alpha && (a, b) in beta
    ensures CountOf(t, alpha, beta, total, a, b, m) == Update(MoveKey(t, a, b, m), m, InMass(t, m, a, b) / total)
  {
    hide Alpha, Beta, ProbAt, AlphaTo, BetaFrom, MoveKey, InMass;
    WholeTables(t, alpha, beta, a - m.dx, b - m.dy);
    WholeTables(t, alpha, beta, a, b);
    MassIs(t, m, a, b);
  }

  lemma MassIs(t: Task, m: Move, a: nat, b: nat)
    requires a <= |t.x| && b <= |t.y| && Fits(m, a, b)
    ensures InMass(t, m, a, b) == Alpha(t, a - m.dx, b - m.dy) * ProbAt(t, a, b, m) * Beta(t, a, b)
  {
    hide Alpha, Beta, ProbAt;
  }

  method CountUp(counts0: map<Pair, real>, u: Update) returns (counts: map<Pair, real>)
    ensures counts == AddOne(counts0, u)
  {
    counts := counts0;
    if u.amount != 0.0 {
      counts := counts[u.key := Lookup(counts, u.key) + u.amount];
    }
  }

  /** All cells of the grid, row by row. */
  method CountGrid(t: Task, alpha: map<Cell, real>, beta: map<Cell, real>, total: real, counts0: map<Pair, real>)
    returns (counts: map<Pair, real>)
    requires total != 0.0 && AlphaTo(t, alpha, |t.x| + 1, 0) && BetaFrom(t, beta, -1, |t.y|)
    ensures counts == AddAll(counts0, GridUpdates(t, total, |t.x| + 1))
  {
    hide AlphaTo, BetaFrom, EMMoves, CellUpdates;
    counts := counts0;
    var a := 0;
    while a <= |t.x|
      invariant a <= |t.x| + 1 && counts == AddAll(counts0, GridUpdates(t, total, a))
    {
      var b := 0;
      ghost var before := counts;
      while b <= |t.y|
        invariant b <= |t.y| + 1 && counts == AddAll(before, RowUpdates(t, total, a, b))
      {
        counts := CountCell(t, alpha, beta, total, a, b, counts);
        AddAllConcat(before, RowUpdates(t, total, a, b), CellUpdates(t, total, a, b, EMMoves(t)));
        b := b + 1;
      }
      AddAllConcat(counts0, GridUpdates(t, total, a), RowUpdates(t, total, a, |t.y| + 1));
      a := a + 1;
    }
  }
}
