/** The maximization step: expected counts turned into probabilities. */
module Maximization {
  import opened Arithmetic
  import opened AlignmentSums

  datatype MaxFn = ConXY | ConYX | Joint

  datatype Outcome<T> = Success(value: T) | ZeroMarginal(symbol: string)

  // ----- sums over table keys -----

  ghost function SumOver(keys: set<Pair>, f: Pair -> real): real
  {
    if keys == {} then 0.0 else
      var k :| k in keys;
      SumOver(keys - {k}, f) + f(k)
  }

  /** Any key may be taken out first. */
  lemma {:induction false} SumTake(keys: set<Pair>, f: Pair -> real, k: Pair)
    requires k in keys
    ensures SumOver(keys, f) == SumOver(keys - {k}, f) + f(k)
    decreases |keys|
  {
    var l :| l in keys && SumOver(keys, f) == SumOver(keys - {l}, f) + f(l);
    if l != k {
      SumTake(keys - {l}, f, k);
      SumTake(keys - {k}, f, l);
      assert keys - {l} - {k} == keys - {k} - {l};
    }
  }

  lemma {:induction false} SumOverEq(keys: set<Pair>, f: Pair -> real, g: Pair -> real)
    requires forall k :: k in keys ==> f(k) == g(k)
    ensures SumOver(keys, f) == SumOver(keys, g)
    decreases |keys|
  {
    if keys != {} {
      var k :| k in keys;
      SumTake(keys, f, k);
      SumTake(keys, g, k);
      SumOverEq(keys - {k}, f, g);
    }
  }

  function Quotient(x: real, d: real): real
    requires d != 0.0
  {
    x / d
  }

  lemma QuotientAdds(x: real, y: real, d: real)
    requires d != 0.0
    ensures Quotient(x, d) + Quotient(y, d) == Quotient(x + y, d)
    ensures Quotient(0.0, d) == 0.0
    ensures Quotient(d, d) == 1.0
  {
    QuotientsAdd(x, y, d);
    ZeroTimes(d);
    QuotientIs(0.0, 0.0, d);
    QuotientIs(1.0, d, d);
  }

  lemma {:induction false} SumOverQuotient(keys: set<Pair>, f: Pair -> real, g: Pair -> real, d: real)
    requires d != 0.0 && forall k :: k in keys ==> g(k) == Quotient(f(k), d)
    ensures SumOver(keys, g) == Quotient(SumOver(keys, f), d)
    decreases |keys|
  {
    hide Quotient;
    if keys == {} {
      QuotientAdds(0.0, 0.0, d);
    } else {
      var k :| k in keys;
      SumTake(keys, f, k);
      SumTake(keys, g, k);
      SumOverQuotient(keys - {k}, f, g, d);
      QuotientAdds(SumOver(keys - {k}, f), f(k), d);
    }
  }

  lemma {:induction false} SumOverBounds(keys: set<Pair>, f: Pair -> real, k: Pair)
    requires (forall l :: l in keys ==> f(l) >= 0.0) && k in keys
    ensures f(k) <= SumOver(keys, f)
    decreases |keys|
  {
    SumTake(keys, f, k);
    SumOverNonNeg(keys - {k}, f);
  }

  lemma {:induction false} SumOverNonNeg(keys: set<Pair>, f: Pair -> real)
    requires forall l :: l in keys ==> f(l) >= 0.0
    ensures SumOver(keys, f) >= 0.0
    decreases |keys|
  {
    if keys != {} {
      var k :| k in keys;
      SumTake(keys, f, k);
      SumOverNonNeg(keys - {k}, f);
    }
  }

  lemma {:induction false} SumOverMonotone(keys: set<Pair>, f: Pair -> real, g: Pair -> real)
    requires forall l :: l in keys ==> f(l) <= g(l)
    ensures SumOver(keys, f) <= SumOver(keys, g)
    decreases |keys|
  {
    if keys != {} {
      var k :| k in keys;
      SumTake(keys, f, k);
      SumTake(keys, g, k);
      SumOverMonotone(keys - {k}, f, g);
    }
  }

  // ----- the three normalisations -----

  /** The entries of a table whose x side (y side) is s, and all of them. */
  function XPart(table: map<Pair, real>, s: string): Pair -> real
  {
    (k: Pair) => if k.0 == s then Lookup(table, k) else 0.0
  }

  function YPart(table: map<Pair, real>, s: string): Pair -> real
  {
    (k: Pair) => if k.1 == s then Lookup(table, k) else 0.0
  }

  function Whole(table: map<Pair, real>): Pair -> real
  {
    (k: Pair) => Lookup(table, k)
  }

  /** The entries that share the denominator of k. */
  function Group(fn: MaxFn, table: map<Pair, real>, k: Pair): Pair -> real
  {
    match fn
    case ConXY => YPart(table, k.1)
    case ConYX => XPart(table, k.0)
    case Joint => Whole(table)
  }

  ghost function Marginal(fn: MaxFn, table: map<Pair, real>, k: Pair): real
  {
    SumOver(table.Keys, Group(fn, table, k))
  }

  predicate SameGroup(fn: MaxFn, k: Pair, l: Pair)
  {
    fn.Joint? || (fn.ConXY? && k.1 == l.1) || (fn.ConYX? && k.0 == l.0)
  }

  /** The table after one maximization step: each entry divided by its marginal. */
  ghost predicate IsNormalisedFrom(fn: MaxFn, counts: map<Pair, real>, probs: map<Pair, real>)
  {
    && probs.Keys == counts.Keys
    && forall k :: k in counts ==> Marginal(fn, counts, k) != 0.0 && probs[k] == Quotient(counts[k], Marginal(fn, counts, k))
  }

  lemma GroupQuotient(fn: MaxFn, counts: map<Pair, real>, probs: map<Pair, real>, k: Pair, l: Pair)
    requires IsNormalisedFrom(fn, counts, probs) && k in counts && l in counts
    ensures Marginal(fn, counts, k) != 0.0
    ensures Group(fn, probs, k)(l) == Quotient(Group(fn, counts, k)(l), Marginal(fn, counts, k))
  {
    hide SumOver, Quotient;
    QuotientAdds(0.0, 0.0, Marginal(fn, counts, k));
    if SameGroup(fn, k, l) {
      assert Group(fn, counts, k) == Group(fn, counts, l);
    }
  }

  /** Every group of a normalised table sums to one: p(.|y), p(.|x) or p(., .). */
  lemma GroupsSumToOne(fn: MaxFn, counts: map<Pair, real>, probs: map<Pair, real>, k: Pair)
    requires IsNormalisedFrom(fn, counts, probs) && k in counts
    ensures Marginal(fn, probs, k) == 1.0
  {
    hide SumOver, Group, Quotient;
    forall l | l in counts
      ensures Group(fn, probs, k)(l) == Quotient(Group(fn, counts, k)(l), Marginal(fn, counts, k))
    {
      GroupQuotient(fn, counts, probs, k, l);
    }
    SumOverQuotient(counts.Keys, Group(fn, counts, k), Group(fn, probs, k), Marginal(fn, counts, k));
    QuotientAdds(0.0, 0.0, Marginal(fn, counts, k));
  }

  lemma GroupNotNegative(fn: MaxFn, counts: map<Pair, real>, k: Pair)
    requires NoneNegative(counts) && k in counts
    ensures forall l :: l in counts ==> Group(fn, counts, k)(l) >= 0.0
    ensures Group(fn, counts, k)(k) == counts[k]
  {
  }

  /** Counts that are not negative give probabilities between zero and one. */
  lemma ProbabilitiesInRange(fn: MaxFn, counts: map<Pair, real>, probs: map<Pair, real>, k: Pair)
    requires IsNormalisedFrom(fn, counts, probs) && k in probs && NoneNegative(counts)
    ensures 0.0 <= probs[k] <= 1.0
  {
    hide SumOver, Group;
    GroupNotNegative(fn, counts, k);
    SumOverBounds(counts.Keys, Group(fn, counts, k), k);
    QuotientInRange(counts[k], Marginal(fn, counts, k));
  }

  predicate NoneNegative(counts: map<Pair, real>)
  {
    forall l :: l in counts ==> counts[l] >= 0.0
  }

  lemma QuotientInRange(c: real, d: real)
    requires 0.0 <= c <= d && d != 0.0
    ensures 0.0 <= c / d <= 1.0
  {
  }

  /** The total cannot vanish when a marginal does not. */
  lemma TotalNotZero(counts: map<Pair, real>, k: Pair)
    requires NoneNegative(counts) && Marginal(ConYX, counts, k) != 0.0
    ensures Marginal(Joint, counts, k) != 0.0
  {
    hide SumOver;
    SumOverNonNeg(counts.Keys, XPart(counts, k.0));
    SumOverMonotone(counts.Keys, XPart(counts, k.0), Whole(counts));
  }

  // ----- the loops -----

  function At(m: map<string, real>, s: string): real
  {
    if s in m then m[s] else 0.0
  }

  /** The sums over the entries done so far. */
  ghost predicate MarginalsOver(counts: map<Pair, real>, done: set<Pair>, countX: map<string, real>,
                                countY: map<string, real>, total: real)
  {
    && (forall s :: At(countX, s) == SumOver(done, XPart(counts, s)))
    && (forall s :: At(countY, s) == SumOver(done, YPart(counts, s)))
    && total == SumOver(done, Whole(counts))
  }

  lemma MarginalsStep(counts: map<Pair, real>, done: set<Pair>, countX: map<string, real>,
                      countY: map<string, real>, total: real, k: Pair)
    requires MarginalsOver(counts, done, countX, countY, total) && k in counts && k !in done
    ensures MarginalsOver(counts, done + {k}, countX[k.0 := At(countX, k.0) + counts[k]],
                          countY[k.1 := At(countY, k.1) + counts[k]], total + counts[k])
  {
    hide SumOver;
    assert done + {k} - {k} == done;
    forall s
      ensures SumOver(done + {k}, XPart(counts, s)) == SumOver(done, XPart(counts, s)) + (if k.0 == s then counts[k] else 0.0)
    {
      SumTake(done + {k}, XPart(counts, s), k);
    }
    forall s
      ensures SumOver(done + {k}, YPart(counts, s)) == SumOver(done, YPart(counts, s)) + (if k.1 == s then counts[k] else 0.0)
    {
      SumTake(done + {k}, YPart(counts, s), k);
    }
    SumTake(done + {k}, Whole(counts), k);
  }

  /** The first pass: both marginals and the total. */
  method AddUp(counts: map<Pair, real>) returns (countX: map<string, real>, countY: map<string, real>, total: real)
    ensures forall k: Pair {:trigger Marginal(ConYX, counts, k)} :: At(countX, k.0) == Marginal(ConYX, counts, k)
    ensures forall k: Pair {:trigger Marginal(ConXY, counts, k)} :: At(countY, k.1) == Marginal(ConXY, counts, k)
    ensures forall k: Pair :: total == Marginal(Joint, counts, k)
  {
    hide MarginalsOver, At;
    countX, countY, total := map[], map[], 0.0;
    NothingAdded(counts);
    var rest := counts.Keys;
    ghost var done: set<Pair> := {};
    while rest != {}
      invariant rest <= counts.Keys && done == counts.Keys - rest
      invariant MarginalsOver(counts, done, countX, countY, total)
      decreases |rest|
    {
      var k :| k in rest;
      MarginalsStep(counts, done, countX, countY, total, k);
      countX := countX[k.0 := At(countX, k.0) + counts[k]];
      countY := countY[k.1 := At(countY, k.1) + counts[k]];
      total := total + counts[k];
      rest := rest - {k};
      done := done + {k};
    }
    assert done == counts.Keys;
    AllAdded(counts, countX, countY, total);
  }

  lemma NothingAdded(counts: map<Pair, real>)
    ensures MarginalsOver(counts, {}, map[], map[], 0.0)
  {
  }

  lemma AllAdded(counts: map<Pair, real>, countX: map<string, real>, countY: map<string, real>, total: real)
    requires MarginalsOver(counts, counts.Keys, countX, countY, total)
    ensures forall k: Pair {:trigger Marginal(ConYX, counts, k)} :: At(countX, k.0) == Marginal(ConYX, counts, k)
    ensures forall k: Pair {:trigger Marginal(ConXY, counts, k)} :: At(countY, k.1) == Marginal(ConXY, counts, k)
    ensures forall k: Pair :: total == Marginal(Joint, counts, k)
  {
    hide SumOver;
  }

  /** One of the two marginals of k is zero. */
  ghost predicate Unusable(counts: map<Pair, real>, k: Pair)
  {
    Marginal(ConXY, counts, k) == 0.0 || Marginal(ConYX, counts, k) == 0.0
  }

  /** The entries of probs are right. */
  ghost predicate DividedSoFar(fn: MaxFn, counts: map<Pair, real>, probs: map<Pair, real>)
  {
    forall k :: k in probs ==>
      && k in counts && !Unusable(counts, k)
      && Marginal(fn, counts, k) != 0.0 && probs[k] == Quotient(counts[k], Marginal(fn, counts, k))
  }

  lemma DividedStep(fn: MaxFn, counts: map<Pair, real>, probs: map<Pair, real>, k: Pair)
    requires DividedSoFar(fn, counts, probs) && k in counts && !Unusable(counts, k)
    requires NoneNegative(counts)
    ensures Marginal(fn, counts, k) != 0.0
    ensures DividedSoFar(fn, counts, probs[k := Quotient(counts[k], Marginal(fn, counts, k))])
  {
    hide Marginal, Quotient, NoneNegative;
    TotalNotZero(counts, k);
  }

  lemma AllDivided(fn: MaxFn, counts: map<Pair, real>, probs: map<Pair, real>)
    requires DividedSoFar(fn, counts, probs) && probs.Keys == counts.Keys
    ensures IsNormalisedFrom(fn, counts, probs)
    ensures !exists k :: k in counts && Unusable(counts, k)
  {
    hide Marginal, Quotient, Unusable;
  }

  /** The second pass. A marginal that is zero stops the program. */
  method Maximize(fn: MaxFn, counts: map<Pair, real>) returns (r: Outcome<map<Pair, real>>)
    requires NoneNegative(counts)
    ensures r.Success? ==> IsNormalisedFrom(fn, counts, r.value)
    ensures r.ZeroMarginal? <==> exists k :: k in counts && Unusable(counts, k)
  {
    hide *;
    var countX, countY, total := AddUp(counts);
    var probs: map<Pair, real> := map[];
    NothingDivided(fn, counts);
    var rest := counts.Keys;
    while rest != {}
      invariant rest <= counts.Keys && probs.Keys == counts.Keys - rest
      invariant DividedSoFar(fn, counts, probs)
      decreases |rest|
    {
      var k :| k in rest;
      UnusableWhen(counts, k);
      assert At(countY, k.1) == Marginal(ConXY, counts, k) && At(countX, k.0) == Marginal(ConYX, counts, k);
      if At(countY, k.1) == 0.0 {
        return ZeroMarginal(k.1);
      }
      if At(countX, k.0) == 0.0 {
        return ZeroMarginal(k.0);
      }
      DividedStep(fn, counts, probs, k);
      assert total == Marginal(Joint, counts, k);
      var updateProb := match fn
        case ConXY => Quotient(counts[k], At(countY, k.1))
        case ConYX => Quotient(counts[k], At(countX, k.0))
        case Joint => Quotient(counts[k], total);
      probs := probs[k := updateProb];
      rest := rest - {k};
    }
    AllDivided(fn, counts, probs);
    r := Success(probs);
  }

  lemma UnusableWhen(counts: map<Pair, real>, k: Pair)
    ensures Unusable(counts, k) <==> Marginal(ConXY, counts, k) == 0.0 || Marginal(ConYX, counts, k) == 0.0
  {
  }

  lemma NothingDivided(fn: MaxFn, counts: map<Pair, real>)
    ensures DividedSoFar(fn, counts, map[])
  {
  }
}
