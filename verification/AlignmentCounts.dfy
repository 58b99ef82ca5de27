/** The updates one expectation step makes to the count table, and what they add up to. */
module AlignmentCounts {
  import opened Sequences
  import opened Arithmetic
  import opened Segmentation
  import opened Sums
  import opened AlignmentSums
  import opened AlignmentFlow

  /** One addition to the count table, and the move that caused it. */
  datatype Update = Update(key: Pair, move: Move, amount: real)

  function AddOne(counts: map<Pair, real>, u: Update): map<Pair, real>
  {
    if u.amount != 0.0 then counts[u.key := Lookup(counts, u.key) + u.amount] else counts
  }

  function AddAll(counts: map<Pair, real>, us: seq<Update>): map<Pair, real>
  {
    if us == [] then counts else AddOne(AddAll(counts, Init(us)), Last(us))
  }

  function KeySum(us: seq<Update>, key: Pair): real
  {
    if us == [] then 0.0
    else KeySum(Init(us), key) + (if Last(us).key == key then Last(us).amount else 0.0)
  }

  /** Every entry of the table grows by exactly the amounts with its key. */
  lemma {:induction false} CountsAdd(counts: map<Pair, real>, us: seq<Update>, key: Pair)
    ensures Lookup(AddAll(counts, us), key) == Lookup(counts, key) + KeySum(us, key)
  {
    if us != [] {
      CountsAdd(counts, Init(us), key);
    }
  }

  /** Expected counts of the moves ms into cell (a, b), normalised by total. */
  ghost function CellUpdates(t: Task, total: real, a: nat, b: nat, ms: seq<Move>): seq<Update>
    requires InGrid(t, a, b) && total != 0.0
  {
    if ms == [] then []
    else
      CellUpdates(t, total, a, b, Init(ms))
      + (if Fits(Last(ms), a, b)
         then [Update(MoveKey(t, a, b, Last(ms)), Last(ms), InMass(t, Last(ms), a, b) / total)] else [])
  }

  ghost function RowUpdates(t: Task, total: real, a: nat, k: nat): seq<Update>
    requires a <= |t.x| && k <= |t.y| + 1 && total != 0.0
  {
    if k == 0 then [] else RowUpdates(t, total, a, k - 1) + CellUpdates(t, total, a, k - 1, EMMoves(t))
  }

  /** The updates of the rows before k, in the order of the loops. */
  ghost function GridUpdates(t: Task, total: real, k: nat): seq<Update>
    requires k <= |t.x| + 1 && total != 0.0
  {
    if k == 0 then [] else GridUpdates(t, total, k - 1) + RowUpdates(t, total, k - 1, |t.y| + 1)
  }

  /** Amounts weighed by what their moves consume. */
  ghost function ConsumedBy(us: seq<Update>, w: Weights): real
  {
    if us == [] then 0.0 else ConsumedBy(Init(us), w) + Consumed(w, Last(us).move) * Last(us).amount
  }

  lemma {:induction false} ConsumedConcat(us: seq<Update>, vs: seq<Update>, w: Weights)
    ensures ConsumedBy(us + vs, w) == ConsumedBy(us, w) + ConsumedBy(vs, w)
  {
    hide Consumed;
    if vs == [] {
      assert us + vs == us;
    } else {
      ConsumedConcat(us, Init(vs), w);
      assert Init(us + vs) == us + Init(vs);
    }
  }

  ghost function CellConsumed(t: Task, w: Weights, ms: seq<Move>, a: int, b: int): real
  {
    if ms == [] then 0.0
    else CellConsumed(t, w, Init(ms), a, b) + Consumed(w, Last(ms)) * InMass(t, Last(ms), a, b)
  }

  ghost function CellsConsumed(t: Task, w: Weights, ms: seq<Move>): (int, int) -> real
  {
    (a, b) => CellConsumed(t, w, ms, a, b)
  }

  ghost function MoveConsumed(t: Task, w: Weights, m: Move): (int, int) -> real
  {
    (a, b) => Consumed(w, m) * MassOf(t, m)(a, b)
  }

  lemma {:induction false} GridConsumed(t: Task, w: Weights, ms: seq<Move>)
    ensures GridSum(t, CellsConsumed(t, w, ms)) == Consumption(t, w, ms)
  {
    hide Consumed, InMass, GridSum;
    if ms == [] {
      GridScale(t, 0.0, CellsConsumed(t, w, ms), CellsConsumed(t, w, ms));
    } else {
      GridConsumed(t, w, Init(ms));
      GridScale(t, Consumed(w, Last(ms)), MassOf(t, Last(ms)), MoveConsumed(t, w, Last(ms)));
      GridAdd(t, CellsConsumed(t, w, Init(ms)), MoveConsumed(t, w, Last(ms)), CellsConsumed(t, w, ms));
    }
  }

  lemma DivideStep(x: real, c: real, v: real, total: real)
    requires total != 0.0
    ensures x / total + c * (v / total) == (x + c * v) / total
  {
  }

  lemma {:induction false} CellUpdatesConsume(t: Task, total: real, w: Weights, a: nat, b: nat, ms: seq<Move>)
    requires InGrid(t, a, b) && total != 0.0
    ensures ConsumedBy(CellUpdates(t, total, a, b, ms), w) == CellConsumed(t, w, ms, a, b) / total
  {
    hide Consumed, MoveKey, Alpha, Beta, ProbAt;
    if ms != [] {
      var m := Last(ms);
      var before := CellUpdates(t, total, a, b, Init(ms));
      CellUpdatesConsume(t, total, w, a, b, Init(ms));
      if Fits(m, a, b) {
        var u := Update(MoveKey(t, a, b, m), m, InMass(t, m, a, b) / total);
        assert Init(before + [u]) == before && Last(before + [u]) == u;
        hide InMass;
        DivideStep(CellConsumed(t, w, Init(ms), a, b), Consumed(w, m), InMass(t, m, a, b), total);
      } else {
        assert CellUpdates(t, total, a, b, ms) == before;
        assert InMass(t, m, a, b) == 0.0;
      }
    }
  }

  lemma {:induction false} RowUpdatesConsume(t: Task, total: real, w: Weights, a: nat, k: nat)
    requires a <= |t.x| && k <= |t.y| + 1 && total != 0.0
    ensures ConsumedBy(RowUpdates(t, total, a, k), w)
         == Sum(k, b => CellsConsumed(t, w, EMMoves(t))(a, b)) / total
  {
    hide EMMoves, CellUpdates, CellConsumed;
    if k > 0 {
      RowUpdatesConsume(t, total, w, a, k - 1);
      CellUpdatesConsume(t, total, w, a, k - 1, EMMoves(t));
      ConsumedConcat(RowUpdates(t, total, a, k - 1), CellUpdates(t, total, a, k - 1, EMMoves(t)), w);
      QuotientsAdd(Sum(k - 1, b => CellsConsumed(t, w, EMMoves(t))(a, b)),
                   CellsConsumed(t, w, EMMoves(t))(a, k - 1), total);
    }
  }

  lemma {:induction false} GridUpdatesConsume(t: Task, total: real, w: Weights, k: nat)
    requires k <= |t.x| + 1 && total != 0.0
    ensures ConsumedBy(GridUpdates(t, total, k), w)
         == Sum(k, a => Sum(|t.y| + 1, b => CellsConsumed(t, w, EMMoves(t))(a, b))) / total
  {
    hide EMMoves, RowUpdates, CellsConsumed;
    if k > 0 {
      var f := CellsConsumed(t, w, EMMoves(t));
      GridUpdatesConsume(t, total, w, k - 1);
      RowUpdatesConsume(t, total, w, k - 1, |t.y| + 1);
      ConsumedConcat(GridUpdates(t, total, k - 1), RowUpdates(t, total, k - 1, |t.y| + 1), w);
      QuotientsAdd(Sum(k - 1, a => Sum(|t.y| + 1, b => f(a, b))), Sum(|t.y| + 1, b => f(k - 1, b)), total);
    }
  }

  /** Expected counts conserve symbols: weighed by the x-lengths of their moves they add up
      to the length of x, weighed by the y-lengths to the length of y. */
  lemma Conservation(t: Task, w: Weights)
    requires w.c == 0.0 && Alpha(t, |t.x|, |t.y|) != 0.0
    ensures ConsumedBy(GridUpdates(t, Alpha(t, |t.x|, |t.y|), |t.x| + 1), w)
         == w.x * |t.x| as real + w.y * |t.y| as real
  {
    hide Alpha, Beta, GridUpdates, Consumption, CellsConsumed;
    var total := Alpha(t, |t.x|, |t.y|);
    GridUpdatesConsume(t, total, w, |t.x| + 1);
    GridConsumed(t, w, EMMoves(t));
    GridBalance(t, w);
    CancelTotal(Potential(w, |t.x|, |t.y|), total, Potential(w, 0, 0), Beta(t, 0, 0));
  }

  lemma CancelTotal(p: real, total: real, q: real, v: real)
    requires total != 0.0 && q == 0.0
    ensures (p * total - q * v) / total == p
  {
  }
}
