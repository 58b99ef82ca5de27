/** Conservation: the expected counts of one pair, weighted by how much of x (of y) each
    move consumes, add up to the length of x (of y). */
module AlignmentFlow {
  import opened Sequences
  import opened Arithmetic
  import opened Segmentation
  import opened Sums
  import opened AlignmentSums

  // ----- sums over the grid of cells -----

  ghost function GridSum(t: Task, f: (int, int) -> real): real
  {
    Sum(|t.x| + 1, a => Sum(|t.y| + 1, b => f(a, b)))
  }

  ghost predicate InGrid(t: Task, a: int, b: int)
  {
    0 <= a <= |t.x| && 0 <= b <= |t.y|
  }

  lemma GridEq(t: Task, f: (int, int) -> real, g: (int, int) -> real)
    requires forall a, b :: InGrid(t, a, b) ==> f(a, b) == g(a, b)
    ensures GridSum(t, f) == GridSum(t, g)
  {
    var rowF, rowG := (a: int) => Sum(|t.y| + 1, b => f(a, b)), (a: int) => Sum(|t.y| + 1, b => g(a, b));
    forall a | 0 <= a < |t.x| + 1
      ensures rowF(a) == rowG(a)
    {
      assert forall b :: 0 <= b < |t.y| + 1 ==> InGrid(t, a, b);
      SumEq(|t.y| + 1, b => f(a, b), b => g(a, b));
    }
    SumEq(|t.x| + 1, rowF, rowG);
  }

  lemma GridAdd(t: Task, f: (int, int) -> real, g: (int, int) -> real, h: (int, int) -> real)
    requires forall a, b :: InGrid(t, a, b) ==> h(a, b) == f(a, b) + g(a, b)
    ensures GridSum(t, h) == GridSum(t, f) + GridSum(t, g)
  {
    var rowF, rowG := (a: int) => Sum(|t.y| + 1, b => f(a, b)), (a: int) => Sum(|t.y| + 1, b => g(a, b));
    var rowH := (a: int) => Sum(|t.y| + 1, b => h(a, b));
    forall a | 0 <= a < |t.x| + 1
      ensures rowH(a) == rowF(a) + rowG(a)
    {
      assert forall b :: 0 <= b < |t.y| + 1 ==> InGrid(t, a, b);
      SumAdd(|t.y| + 1, b => f(a, b), b => g(a, b), b => h(a, b));
    }
    SumAdd(|t.x| + 1, rowF, rowG, rowH);
  }

  lemma GridScale(t: Task, c: real, f: (int, int) -> real, h: (int, int) -> real)
    requires forall a, b :: InGrid(t, a, b) ==> h(a, b) == c * f(a, b)
    ensures GridSum(t, h) == c * GridSum(t, f)
  {
    var rowF, rowH := (a: int) => Sum(|t.y| + 1, b => f(a, b)), (a: int) => Sum(|t.y| + 1, b => h(a, b));
    forall a | 0 <= a < |t.x| + 1
      ensures rowH(a) == c * rowF(a)
    {
      assert forall b :: 0 <= b < |t.y| + 1 ==> InGrid(t, a, b);
      SumScale(|t.y| + 1, c, b => f(a, b), b => h(a, b));
    }
    SumScale(|t.x| + 1, c, rowF, rowH);
  }

  /** A sum with one cell that may be nonzero. */
  lemma GridPick(t: Task, p: int, q: int, f: (int, int) -> real)
    requires InGrid(t, p, q)
    requires forall a, b :: InGrid(t, a, b) && (a != p || b != q) ==> f(a, b) == 0.0
    ensures GridSum(t, f) == f(p, q)
  {
    var row := (a: int) => Sum(|t.y| + 1, b => f(a, b));
    forall a | 0 <= a < |t.x| + 1 && a != p
      ensures row(a) == 0.0
    {
      assert forall b :: 0 <= b < |t.y| + 1 ==> InGrid(t, a, b);
      SumZero(|t.y| + 1, b => f(a, b));
    }
    SumPick(|t.x| + 1, p, row);
    assert forall b :: 0 <= b < |t.y| + 1 ==> InGrid(t, p, b);
    SumPick(|t.y| + 1, q, b => f(p, b));
  }

  lemma {:induction false} SumSplit(d: nat, n: nat, f: int -> real)
    ensures Sum(d + n, f) == Sum(d, f) + Sum(n, i => f(i + d))
  {
    if n > 0 {
      SumSplit(d, n - 1, f);
    }
  }

  /** Moving the window of a sum by d keeps it when nothing lies outside the overlap. */
  lemma SumShift(n: nat, d: nat, f: int -> real)
    requires forall i :: 0 <= i < d || n <= i < n + d ==> f(i) == 0.0
    ensures Sum(n, f) == Sum(n, i => f(i + d))
  {
    SumSplit(d, n, f);
    SumSplit(n, d, f);
    SumZero(d, f);
    SumZero(d, i => f(i + n));
  }

  ghost function Shifted(f: (int, int) -> real, m: Move): (int, int) -> real
  {
    (a, b) => f(a + m.dx, b + m.dy)
  }

  lemma GridShift(t: Task, m: Move, f: (int, int) -> real)
    requires forall a, b :: a < m.dx || a > |t.x| || b < m.dy || b > |t.y| ==> f(a, b) == 0.0
    ensures GridSum(t, f) == GridSum(t, Shifted(f, m))
  {
    var g := Shifted(f, m);
    var row := (a: int) => Sum(|t.y| + 1, b => f(a, b));
    var rowG := (a: int) => Sum(|t.y| + 1, b => g(a, b));
    forall a | a < m.dx || a > |t.x|
      ensures row(a) == 0.0
    {
      SumZero(|t.y| + 1, b => f(a, b));
    }
    SumShift(|t.x| + 1, m.dx, row);
    forall a | 0 <= a < |t.x| + 1
      ensures row(a + m.dx) == rowG(a)
    {
      var h := b => f(a + m.dx, b);
      SumShift(|t.y| + 1, m.dy, h);
      SumEq(|t.y| + 1, b => h(b + m.dy), b => g(a, b));
      SumEq(|t.y| + 1, h, b => f(a + m.dx, b));
    }
    SumEq(|t.x| + 1, a => row(a + m.dx), rowG);
  }

  // ----- the mass of a move -----

  /** Unnormalised expected count of the move m into cell (a, b). */
  ghost function InMass(t: Task, m: Move, a: int, b: int): real
  {
    if InGrid(t, a, b) && Fits(m, a, b)
    then Alpha(t, a - m.dx, b - m.dy) * ProbAt(t, a, b, m) * Beta(t, a, b)
    else 0.0
  }

  /** The same seen from the cell the move leaves. */
  ghost function OutMass(t: Task, m: Move, a: int, b: int): real
  {
    if InGrid(t, a, b) then InMass(t, m, a + m.dx, b + m.dy) else 0.0
  }

  ghost function CellIn(t: Task, ms: seq<Move>, a: int, b: int): real
  {
    if ms == [] then 0.0 else CellIn(t, Init(ms), a, b) + InMass(t, Last(ms), a, b)
  }

  ghost function CellOut(t: Task, ms: seq<Move>, a: int, b: int): real
  {
    if ms == [] then 0.0 else CellOut(t, Init(ms), a, b) + OutMass(t, Last(ms), a, b)
  }

  lemma {:induction false} CellInFactors(t: Task, ms: seq<Move>, a: nat, b: nat)
    requires InGrid(t, a, b)
    ensures CellIn(t, ms, a, b) == InSum(t, a, b, ms) * Beta(t, a, b)
  {
    hide Alpha, Beta, ProbAt;
    if ms != [] {
      CellInFactors(t, Init(ms), a, b);
      var m := Last(ms);
      if Fits(m, a, b) {
        FactorIn(InSum(t, a, b, Init(ms)), ProbAt(t, a, b, m), Alpha(t, a - m.dx, b - m.dy), Beta(t, a, b));
      }
    }
  }

  lemma FactorIn(s: real, p: real, al: real, be: real)
    ensures (s + p * al) * be == s * be + al * p * be
  {
  }

  lemma {:induction false} CellOutFactors(t: Task, ms: seq<Move>, a: nat, b: nat)
    requires InGrid(t, a, b)
    ensures CellOut(t, ms, a, b) == Alpha(t, a, b) * OutSum(t, a, b, ms)
  {
    hide Alpha, Beta, ProbAt;
    if ms != [] {
      CellOutFactors(t, Init(ms), a, b);
      var m := Last(ms);
      if Leaves(t, m, a, b) {
        FactorOut(OutSum(t, a, b, Init(ms)), ProbAt(t, a + m.dx, b + m.dy, m), Alpha(t, a, b),
                  Beta(t, a + m.dx, b + m.dy));
      }
    }
  }

  lemma FactorOut(s: real, p: real, al: real, be: real)
    ensures al * (s + p * be) == al * s + al * p * be
  {
  }

  // ----- weighing the cells by a linear potential -----

  /** A linear function of the position; its increment along a move is what the move consumes. */
  datatype Weights = Weights(c: real, x: real, y: real)

  function Potential(w: Weights, a: int, b: int): real
  {
    w.c + w.x * a as real + w.y * b as real
  }

  function Consumed(w: Weights, m: Move): real
  {
    w.x * m.dx as real + w.y * m.dy as real
  }

  ghost function MassOf(t: Task, m: Move): (int, int) -> real
  {
    (a, b) => InMass(t, m, a, b)
  }

  ghost function WeighedMass(t: Task, w: Weights, m: Move): (int, int) -> real
  {
    (a, b) => Potential(w, a, b) * InMass(t, m, a, b)
  }

  ghost function WeighedOutMass(t: Task, w: Weights, m: Move): (int, int) -> real
  {
    (a, b) => Potential(w, a, b) * OutMass(t, m, a, b)
  }

  ghost function ConsumedMass(t: Task, w: Weights, m: Move): (int, int) -> real
  {
    (a, b) => Consumed(w, m) * Shifted(MassOf(t, m), m)(a, b)
  }

  lemma PotentialStep(w: Weights, m: Move, a: int, b: int, v: real)
    ensures Potential(w, a + m.dx, b + m.dy) * v == Potential(w, a, b) * v + Consumed(w, m) * v
  {
    assert Potential(w, a + m.dx, b + m.dy) == Potential(w, a, b) + Consumed(w, m);
  }

  lemma ShiftedSplits(t: Task, w: Weights, m: Move)
    ensures GridSum(t, Shifted(WeighedMass(t, w, m), m))
         == GridSum(t, WeighedOutMass(t, w, m)) + GridSum(t, ConsumedMass(t, w, m))
  {
    hide Potential, Consumed, InMass;
    forall a, b | InGrid(t, a, b)
      ensures Shifted(WeighedMass(t, w, m), m)(a, b) == WeighedOutMass(t, w, m)(a, b) + ConsumedMass(t, w, m)(a, b)
    {
      var v := InMass(t, m, a + m.dx, b + m.dy);
      PotentialStep(w, m, a, b, v);
      assert Shifted(MassOf(t, m), m)(a, b) == v;
      assert Shifted(WeighedMass(t, w, m), m)(a, b) == Potential(w, a + m.dx, b + m.dy) * v;
    }
    GridAdd(t, WeighedOutMass(t, w, m), ConsumedMass(t, w, m), Shifted(WeighedMass(t, w, m), m));
  }

  /** One move carries its mass from where it starts to where it ends. */
  lemma MoveBalance(t: Task, w: Weights, m: Move)
    ensures GridSum(t, WeighedMass(t, w, m))
         == GridSum(t, WeighedOutMass(t, w, m)) + Consumed(w, m) * GridSum(t, MassOf(t, m))
  {
    hide Potential, Consumed, GridSum, ProbAt, Alpha, Beta;
    forall a, b | a < m.dx || a > |t.x| || b < m.dy || b > |t.y|
      ensures MassOf(t, m)(a, b) == 0.0 && WeighedMass(t, w, m)(a, b) == 0.0
    {
    }
    GridShift(t, m, MassOf(t, m));
    GridShift(t, m, WeighedMass(t, w, m));
    hide *;
    ShiftedSplits(t, w, m);
    ScaledMass(t, w, m);
  }

  lemma ScaledMass(t: Task, w: Weights, m: Move)
    ensures GridSum(t, ConsumedMass(t, w, m)) == Consumed(w, m) * GridSum(t, Shifted(MassOf(t, m), m))
  {
    GridScale(t, Consumed(w, m), Shifted(MassOf(t, m), m), ConsumedMass(t, w, m));
  }

  // ----- telescoping over all moves -----

  /** Consumption of all moves of ms, by mass. */
  ghost function Consumption(t: Task, w: Weights, ms: seq<Move>): real
  {
    if ms == [] then 0.0
    else Consumption(t, w, Init(ms)) + Consumed(w, Last(ms)) * GridSum(t, MassOf(t, Last(ms)))
  }

  ghost function WeighedIn(t: Task, w: Weights, ms: seq<Move>): (int, int) -> real
  {
    (a, b) => Potential(w, a, b) * CellIn(t, ms, a, b)
  }

  ghost function WeighedOut(t: Task, w: Weights, ms: seq<Move>): (int, int) -> real
  {
    (a, b) => Potential(w, a, b) * CellOut(t, ms, a, b)
  }

  lemma WeighedInSnoc(t: Task, w: Weights, ms: seq<Move>)
    requires ms != []
    ensures GridSum(t, WeighedIn(t, w, ms))
         == GridSum(t, WeighedIn(t, w, Init(ms))) + GridSum(t, WeighedMass(t, w, Last(ms)))
    ensures GridSum(t, WeighedOut(t, w, ms))
         == GridSum(t, WeighedOut(t, w, Init(ms))) + GridSum(t, WeighedOutMass(t, w, Last(ms)))
  {
    hide Potential, InMass, OutMass;
    var m := Last(ms);
    forall a, b | InGrid(t, a, b)
      ensures WeighedIn(t, w, ms)(a, b) == WeighedIn(t, w, Init(ms))(a, b) + WeighedMass(t, w, m)(a, b)
      ensures WeighedOut(t, w, ms)(a, b) == WeighedOut(t, w, Init(ms))(a, b) + WeighedOutMass(t, w, m)(a, b)
    {
      Distribute(Potential(w, a, b), CellIn(t, Init(ms), a, b), InMass(t, m, a, b));
      Distribute(Potential(w, a, b), CellOut(t, Init(ms), a, b), OutMass(t, m, a, b));
    }
    GridAdd(t, WeighedIn(t, w, Init(ms)), WeighedMass(t, w, m), WeighedIn(t, w, ms));
    GridAdd(t, WeighedOut(t, w, Init(ms)), WeighedOutMass(t, w, m), WeighedOut(t, w, ms));
  }

  lemma {:induction false} AllMovesBalance(t: Task, w: Weights, ms: seq<Move>)
    ensures GridSum(t, WeighedIn(t, w, ms)) == GridSum(t, WeighedOut(t, w, ms)) + Consumption(t, w, ms)
  {
    hide GridSum, Consumed;
    if ms == [] {
      GridEq(t, WeighedIn(t, w, ms), WeighedOut(t, w, ms));
    } else {
      AllMovesBalance(t, w, Init(ms));
      hide WeighedIn, WeighedOut, WeighedMass, WeighedOutMass, MassOf;
      WeighedInSnoc(t, w, ms);
      MoveBalance(t, w, Last(ms));
    }
  }

  ghost function Corner(t: Task, w: Weights, p: int, q: int, v: real): (int, int) -> real
  {
    (a, b) => if a == p && b == q then Potential(w, p, q) * v else 0.0
  }

  /** Mass that runs through a cell. */
  ghost function Through(t: Task, a: int, b: int): real
    requires InGrid(t, a, b)
  {
    Alpha(t, a, b) * Beta(t, a, b)
  }

  lemma ThroughCorners(t: Task)
    ensures Through(t, 0, 0) == Beta(t, 0, 0)
    ensures Through(t, |t.x|, |t.y|) == Alpha(t, |t.x|, |t.y|)
  {
    assert Alpha(t, 0, 0) == 1.0 && Beta(t, |t.x|, |t.y|) == 1.0;
    hide Alpha, Beta;
  }

  /** The mass through a cell enters by its incoming and leaves by its outgoing moves. */
  lemma CellThrough(t: Task, a: nat, b: nat)
    requires InGrid(t, a, b)
    ensures CellIn(t, EMMoves(t), a, b) == if a == 0 && b == 0 then 0.0 else Through(t, a, b)
    ensures CellOut(t, EMMoves(t), a, b) == if a == |t.x| && b == |t.y| then 0.0 else Through(t, a, b)
  {
    hide Alpha, Beta, InSum, OutSum, EMMoves, CellIn, CellOut;
    CellInFactors(t, EMMoves(t), a, b);
    CellOutFactors(t, EMMoves(t), a, b);
    NothingInto(t, EMMoves(t));
    NothingOutOf(t, EMMoves(t));
    OneStep(t, a, b);
  }

  lemma OneStep(t: Task, a: nat, b: nat)
    requires InGrid(t, a, b)
    ensures a != 0 || b != 0 ==> Alpha(t, a, b) == InSum(t, a, b, EMMoves(t))
    ensures a != |t.x| || b != |t.y| ==> Beta(t, a, b) == OutSum(t, a, b, EMMoves(t))
  {
    hide EMMoves, InSum, OutSum;
  }

  lemma CornerSum(p: real, c: real, v: real, corner: bool)
    requires c == if corner then 0.0 else v
    ensures p * c + (if corner then p * v else 0.0) == p * v
  {
  }

  /** Mass enters a cell as it leaves it, except at the two corners. */
  lemma CellBalance(t: Task, w: Weights, a: nat, b: nat)
    requires InGrid(t, a, b)
    ensures WeighedIn(t, w, EMMoves(t))(a, b) + Corner(t, w, 0, 0, Beta(t, 0, 0))(a, b)
         == WeighedOut(t, w, EMMoves(t))(a, b) + Corner(t, w, |t.x|, |t.y|, Alpha(t, |t.x|, |t.y|))(a, b)
  {
    hide EMMoves, CellIn, CellOut, Alpha, Beta, Potential, Through;
    CellThrough(t, a, b);
    ThroughCorners(t);
    var p, v := Potential(w, a, b), Through(t, a, b);
    CornerSum(p, CellIn(t, EMMoves(t), a, b), v, a == 0 && b == 0);
    CornerSum(p, CellOut(t, EMMoves(t), a, b), v, a == |t.x| && b == |t.y|);
  }

  lemma {:induction false} NothingInto(t: Task, ms: seq<Move>)
    ensures InSum(t, 0, 0, ms) == 0.0
  {
    if ms != [] { NothingInto(t, Init(ms)); }
  }

  lemma {:induction false} NothingOutOf(t: Task, ms: seq<Move>)
    ensures OutSum(t, |t.x|, |t.y|, ms) == 0.0
  {
    if ms != [] { NothingOutOf(t, Init(ms)); }
  }

  /** The balance over the whole grid: consumption is the potential difference between the
      corners, weighed by the total mass. */
  lemma GridBalance(t: Task, w: Weights)
    ensures Consumption(t, w, EMMoves(t))
         == Potential(w, |t.x|, |t.y|) * Alpha(t, |t.x|, |t.y|) - Potential(w, 0, 0) * Beta(t, 0, 0)
  {
    hide EMMoves, Potential, Consumption, Alpha, Beta, GridSum, CellIn, CellOut;
    var ms := EMMoves(t);
    var win, wout := WeighedIn(t, w, ms), WeighedOut(t, w, ms);
    var start := Corner(t, w, 0, 0, Beta(t, 0, 0));
    var final := Corner(t, w, |t.x|, |t.y|, Alpha(t, |t.x|, |t.y|));
    AllMovesBalance(t, w, ms);
    var both := (a: int, b: int) => win(a, b) + start(a, b);
    forall a, b | InGrid(t, a, b)
      ensures both(a, b) == wout(a, b) + final(a, b)
    {
      CellBalance(t, w, a, b);
    }
    GridAdd(t, win, start, both);
    GridAdd(t, wout, final, both);
    GridPick(t, 0, 0, start);
    GridPick(t, |t.x|, |t.y|, final);
  }

  /** The forward total is the backward total. */
  lemma TotalsAgree(t: Task)
    ensures Alpha(t, |t.x|, |t.y|) == Beta(t, 0, 0)
  {
    hide Alpha, Beta;
    var w := Weights(1.0, 0.0, 0.0);
    GridBalance(t, w);
    NoConsumption(t, EMMoves(t));
  }

  lemma {:induction false} NoConsumption(t: Task, ms: seq<Move>)
    ensures Consumption(t, Weights(1.0, 0.0, 0.0), ms) == 0.0
  {
    hide GridSum;
    if ms != [] {
      NoConsumption(t, Init(ms));
      assert Consumed(Weights(1.0, 0.0, 0.0), Last(ms)) == 0.0;
    }
  }
}
