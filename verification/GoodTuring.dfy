/** Good-Turing discounting with Katz's correction: the search for a usable discounting range
    and what the discounts take away. */
module GoodTuring {
  import opened Arithmetic
  import opened Sums

  /** Floating-point quotients of counts: a zero denominator gives infinity or no number. */
  datatype Ext = Fin(v: real) | PosInf | NaN

  function Divide(x: nat, y: nat): Ext
  {
    if y > 0 then Fin(x as real / y as real) else if x > 0 then PosInf else NaN
  }

  /** The comparisons that reject a discount; no number fails neither of them. */
  predicate OutOfRange(d: Ext)
  {
    d.PosInf? || (d.Fin? && (d.v < 0.0 || d.v > 1.0))
  }

  function CommonTerm(f: seq<nat>, k: nat): real
    requires k + 1 < |f| && f[1] > 0
  {
    ((k + 1) * f[k + 1]) as real / f[1] as real
  }

  function FirstTerm(f: seq<nat>, r: nat): Ext
    requires r + 1 < |f|
  {
    Divide((r + 1) * f[r + 1], r * f[r])
  }

  /** The discount of count r under range k. */
  function Ratio(f: seq<nat>, k: nat, r: nat): Ext
    requires r <= k && k + 1 < |f| && f[1] > 0 && 0.0 < CommonTerm(f, k) < 1.0
  {
    var t := FirstTerm(f, r);
    if t.Fin? then Fin((t.v - CommonTerm(f, k)) / (1.0 - CommonTerm(f, k))) else t
  }

  predicate CommonInRange(f: seq<nat>, k: nat)
    requires k + 1 < |f| && f[1] > 0
  {
    0.0 < CommonTerm(f, k) < 1.0
  }

  /** Range k yields discounts that all pass the test. */
  predicate Accepts(f: seq<nat>, k: nat)
    requires k + 1 < |f| && f[1] > 0
  {
    CommonInRange(f, k) && forall r :: 1 <= r <= k ==> !OutOfRange(Ratio(f, k, r))
  }

  /** The search stops at range k. */
  predicate Settles(n: int, f: seq<nat>, k: nat)
    requires k + 1 < |f| && f[1] > 0
  {
    k == 0 || (k == 1 && n == 1 && f[0] > 0) || Accepts(f, k)
  }

  // ----- what acceptance means -----

  lemma QuotientSigns(x: real, c: real)
    requires 0.0 < c < 1.0
    ensures x == 0.0 ==> (x - c) / (1.0 - c) < 0.0
  {
  }

  /** An accepted range has no empty frequency class: the class below the first empty one
      would have a negative discount. */
  lemma {:induction false} AcceptedPositive(f: seq<nat>, k: nat, r: nat)
    requires k + 1 < |f| && f[1] > 0 && Accepts(f, k) && 1 <= r <= k + 1
    ensures f[r] > 0
  {
    if r > 1 {
      AcceptedPositive(f, k, r - 1);
      if f[r] == 0 {
        assert (r - 1) * f[r - 1] > 0;
        QuotientSigns(0.0, CommonTerm(f, k));
        assert FirstTerm(f, r - 1) == Fin(0.0);
        assert OutOfRange(Ratio(f, k, r - 1));
      }
    }
  }

  /** Accepted discounts are numbers between zero and one. */
  lemma AcceptedInRange(f: seq<nat>, k: nat, r: nat)
    requires k + 1 < |f| && f[1] > 0 && Accepts(f, k) && 1 <= r <= k
    ensures Ratio(f, k, r).Fin? && 0.0 <= Ratio(f, k, r).v <= 1.0
  {
    AcceptedPositive(f, k, r);
    assert r * f[r] > 0;
    assert !OutOfRange(Ratio(f, k, r));
  }

  lemma QuotientOrder(a: real, b: real, c: real, d: real)
    requires a > 0.0 && d > 0.0
    ensures c / d <= b / a <==> c * a <= b * d
    ensures b / a <= 1.0 <==> b <= a
  {
    var x, q := b / a, c / d;
    TimesQuotient(b, a);
    TimesQuotient(c, d);
    CrossProducts(a, b, c, d, x, q);
    Monotone(q, x, a * d);
    Monotone(x, 1.0, a);
  }

  lemma CrossProducts(a: real, b: real, c: real, d: real, x: real, q: real)
    requires a * x == b && d * q == c && a > 0.0 && d > 0.0
    ensures c * a == q * (a * d) && b * d == x * (a * d) && a * d > 0.0
  {
  }

  lemma Monotone(u: real, v: real, w: real)
    requires w > 0.0
    ensures u <= v <==> u * w <= v * w
  {
  }

  lemma SignOf(u: real, w: real)
    requires w > 0.0
    ensures 0.0 <= u <==> 0.0 <= u * w
    ensures 0.0 < u <==> 0.0 < u * w
  {
  }

  lemma ShareSigns(y: real, x: real, q: real)
    requires q < 1.0 && y * (1.0 - q) == x - q
    ensures 0.0 <= y <= 1.0 <==> q <= x <= 1.0
  {
    SignOf(y, 1.0 - q);
    SignOf(1.0 - y, 1.0 - q);
    Distribute(1.0 - q, 1.0, -y);
    assert (1.0 - y) * (1.0 - q) == (1.0 - q) - y * (1.0 - q);
  }

  /** The common term lies strictly between zero and one. */
  predicate CommonFits(f: seq<nat>, k: nat)
    requires k + 1 < |f|
  {
    0 < (k + 1) * f[k + 1] < f[1]
  }

  /** Count r occurs, and its discount lies between zero and one. */
  predicate DiscountFits(f: seq<nat>, k: nat, r: nat)
    requires k + 1 < |f| && r <= k
  {
    f[r] > 0 && ((k + 1) * f[k + 1]) * (r * f[r]) <= ((r + 1) * f[r + 1]) * f[1] && (r + 1) * f[r + 1] <= r * f[r]
  }

  lemma CommonFitsExactly(f: seq<nat>, k: nat)
    requires k + 1 < |f| && f[1] > 0
    ensures CommonInRange(f, k) <==> CommonFits(f, k)
  {
    var a, d := ((k + 1) * f[k + 1]) as real, f[1] as real;
    var c := a / d;
    TimesQuotient(a, d);
    SignOf(c, d);
    SignOf(1.0 - c, d);
    Distribute(d, 1.0, -c);
    assert (1.0 - c) * d == d - d * c;
  }

  lemma DiscountFitsExactly(f: seq<nat>, k: nat, r: nat)
    requires 1 <= r <= k && k + 1 < |f| && f[1] > 0 && CommonInRange(f, k) && f[r] > 0
    ensures !OutOfRange(Ratio(f, k, r)) <==> DiscountFits(f, k, r)
  {
    RatioIs(f, k, r);
    hide Ratio, FirstTerm;
    var a, b, c, d := Tokens(f, r), Tokens(f, r + 1), ((k + 1) * f[k + 1]) as real, f[1] as real;
    var y := (b / a - c / d) / (1.0 - c / d);
    TimesQuotient(b / a - c / d, 1.0 - c / d);
    ShareSigns(y, b / a, c / d);
    QuotientOrder(a, b, c, d);
    CastProducts((k + 1) * f[k + 1], r * f[r]);
    CastProducts((r + 1) * f[r + 1], f[1]);
  }

  lemma CastProducts(m: nat, n: nat)
    ensures (m * n) as real == m as real * n as real
  {
  }

  /** A range is accepted exactly when, in whole numbers, its common term is a proper fraction and
      every class in it occurs with a discount between zero and one. */
  lemma AcceptsExactly(f: seq<nat>, k: nat)
    requires k + 1 < |f| && f[1] > 0
    ensures Accepts(f, k) <==> CommonFits(f, k) && forall r :: 1 <= r <= k ==> DiscountFits(f, k, r)
  {
    hide CommonTerm, Ratio, OutOfRange, DiscountFits, CommonFits;
    CommonFitsExactly(f, k);
    if CommonInRange(f, k) {
      if Accepts(f, k) {
        forall r | 1 <= r <= k
          ensures DiscountFits(f, k, r)
        {
          AcceptedPositive(f, k, r);
          DiscountFitsExactly(f, k, r);
        }
      } else if forall r :: 1 <= r <= k ==> DiscountFits(f, k, r) {
        forall r | 1 <= r <= k
          ensures !OutOfRange(Ratio(f, k, r))
        {
          FitsOccurs(f, k, r);
          DiscountFitsExactly(f, k, r);
        }
      }
    }
  }

  lemma FitsOccurs(f: seq<nat>, k: nat, r: nat)
    requires k + 1 < |f| && r <= k && DiscountFits(f, k, r)
    ensures f[r] > 0
  {
  }

  /** Tokens with count r. */
  function Tokens(f: seq<nat>, r: nat): real
    requires r < |f|
  {
    (r * f[r]) as real
  }

  ghost function Removed(f: seq<nat>, k: nat): int -> real
    requires k + 1 < |f| && f[1] > 0 && Accepts(f, k)
  {
    i => if 0 <= i < k && Ratio(f, k, i + 1).Fin? then Tokens(f, i + 1) * (1.0 - Ratio(f, k, i + 1).v) else 0.0
  }

  lemma RemovedTerm(a: real, b: real, c: real)
    requires a > 0.0 && 0.0 < c < 1.0
    ensures a * (1.0 - (b / a - c) / (1.0 - c)) == (a - b) / (1.0 - c)
  {
    var x := b / a;
    TimesQuotient(b, a);
    var q := (x - c) / (1.0 - c);
    TimesQuotient(x - c, 1.0 - c);
    KeptShare(a, b, c, x, q);
    QuotientIs(a * (1.0 - q), a - b, 1.0 - c);
  }

  lemma KeptShare(a: real, b: real, c: real, x: real, q: real)
    requires a * x == b && (1.0 - c) * q == x - c
    ensures (a * (1.0 - q)) * (1.0 - c) == a - b
  {
    assert (1.0 - q) * (1.0 - c) == 1.0 - x;
    assert a * ((1.0 - q) * (1.0 - c)) == a * (1.0 - x);
  }

  lemma RatioIs(f: seq<nat>, k: nat, r: nat)
    requires 1 <= r <= k && k + 1 < |f| && f[1] > 0 && 0.0 < CommonTerm(f, k) < 1.0 && f[r] > 0
    ensures Tokens(f, r) > 0.0
    ensures Ratio(f, k, r) == Fin((Tokens(f, r + 1) / Tokens(f, r) - CommonTerm(f, k)) / (1.0 - CommonTerm(f, k)))
  {
    hide CommonTerm;
    assert r * f[r] > 0;
  }

  lemma RemovedIs(f: seq<nat>, k: nat, r: nat)
    requires k + 1 < |f| && f[1] > 0 && Accepts(f, k) && 1 <= r <= k
    ensures Removed(f, k)(r - 1) == (Tokens(f, r) - Tokens(f, r + 1)) / (1.0 - CommonTerm(f, k))
  {
    hide Ratio, Tokens, CommonTerm;
    AcceptedPositive(f, k, r);
    RatioIs(f, k, r);
    RemovedTerm(Tokens(f, r), Tokens(f, r + 1), CommonTerm(f, k));
  }

  /** The removed mass telescopes. */
  lemma {:induction false} RemovedSum(f: seq<nat>, k: nat, n: nat)
    requires k + 1 < |f| && f[1] > 0 && Accepts(f, k) && n <= k
    ensures CommonTerm(f, k) < 1.0
    ensures Sum(n, Removed(f, k)) == (Tokens(f, 1) - Tokens(f, n + 1)) / (1.0 - CommonTerm(f, k))
  {
    hide Ratio, Tokens, CommonTerm, Removed;
    var c := CommonTerm(f, k);
    if n == 0 {
      QuotientIs(0.0, 0.0, 1.0 - c);
    } else {
      RemovedSum(f, k, n - 1);
      RemovedIs(f, k, n);
      QuotientsAdd(Tokens(f, 1) - Tokens(f, n), Tokens(f, n) - Tokens(f, n + 1), 1.0 - c);
    }
  }

  /** The discounts of an accepted range take away exactly the number of singletons. */
  lemma RemovesSingletons(f: seq<nat>, k: nat)
    requires k + 1 < |f| && f[1] > 0 && Accepts(f, k)
    ensures Sum(k, Removed(f, k)) == f[1] as real
  {
    RemovedSum(f, k, k);
    var t1, tk, c := f[1] as real, Tokens(f, k + 1), CommonTerm(f, k);
    assert Tokens(f, 1) == t1;
    SingletonMass(t1, tk, c);
  }

  lemma SingletonMass(t1: real, tk: real, c: real)
    requires t1 > 0.0 && c == tk / t1 && c < 1.0
    ensures (t1 - tk) / (1.0 - c) == t1
  {
    TimesQuotient(tk, t1);
    assert t1 - tk == t1 * (1.0 - c);
    QuotientIs(t1, t1 - tk, 1.0 - c);
  }

  // ----- discounted counts -----

  /** The discounted value of a count: only counts in range are discounted. */
  function DiscountedCount(discRange: nat, d: seq<Ext>, count: nat): Ext
    requires discRange < |d|
  {
    if count <= discRange then
      (if d[count].Fin? then Fin(d[count].v * count as real) else d[count])
    else Fin(count as real)
  }

  /** All tokens of counts 1 to n. */
  ghost function Total(f: seq<nat>): int -> real
  {
    i => if 0 <= i && i + 1 < |f| then Tokens(f, i + 1) else 0.0
  }

  ghost function DiscountedTotal(f: seq<nat>, discRange: nat, d: seq<Ext>): int -> real
    requires discRange < |d|
  {
    i => if 0 <= i && i + 1 < |f| && DiscountedCount(discRange, d, i + 1).Fin?
         then f[i + 1] as real * DiscountedCount(discRange, d, i + 1).v else 0.0
  }

  lemma MassInRange(f: seq<nat>, k: nat, d: seq<Ext>, i: nat)
    requires k + 1 < |f| && f[1] > 0 && Accepts(f, k) && k < |d| && i < k && d[i + 1] == Ratio(f, k, i + 1)
    ensures Total(f)(i) == DiscountedTotal(f, k, d)(i) + Removed(f, k)(i)
  {
    hide Accepts, Ratio;
    AcceptedInRange(f, k, i + 1);
    DiscountedTerm(f[i + 1], i + 1, d[i + 1].v);
  }

  lemma MassBeyond(f: seq<nat>, k: nat, d: seq<Ext>, i: nat)
    requires k <= i && i + 1 < |f| && k < |d|
    ensures DiscountedTotal(f, k, d)(i) == Total(f)(i)
  {
  }

  /** Without a cutoff, discounting takes exactly the singletons off the total, whatever counts
      beyond the range there are. */
  lemma {:induction false} DiscountedMass(f: seq<nat>, k: nat, d: seq<Ext>, n: nat)
    requires k + 1 < |f| && f[1] > 0 && Accepts(f, k) && k < |d| && k <= n < |f|
    requires forall r :: 1 <= r <= k ==> d[r] == Ratio(f, k, r)
    ensures Sum(n, DiscountedTotal(f, k, d)) == Sum(n, Total(f)) - f[1] as real
    decreases n - k
  {
    hide Accepts, Ratio, DiscountedTotal, Total, Removed;
    if n == k {
      forall i | 0 <= i < k
        ensures Total(f)(i) == DiscountedTotal(f, k, d)(i) + Removed(f, k)(i)
      {
        MassInRange(f, k, d, i);
      }
      SumAdd(k, DiscountedTotal(f, k, d), Removed(f, k), Total(f));
      RemovesSingletons(f, k);
    } else {
      DiscountedMass(f, k, d, n - 1);
      MassBeyond(f, k, d, n - 1);
    }
  }

  lemma DiscountedTerm(fr: nat, r: nat, v: real)
    ensures (r * fr) as real == fr as real * (v * r as real) + (r * fr) as real * (1.0 - v)
  {
  }

  // ----- the search -----

  method Discounts(f: seq<nat>, k: nat, d: array<Ext>) returns (good: bool)
    requires k + 1 < |f| && f[1] > 0 && k < d.Length && CommonInRange(f, k)
    modifies d
    ensures forall r :: 1 <= r <= k ==> d[r] == Ratio(f, k, r)
    ensures good <==> Accepts(f, k)
  {
    hide Ratio, OutOfRange;
    for r := 1 to k + 1
      invariant forall q :: 1 <= q < r ==> d[q] == Ratio(f, k, q)
    {
      d[r] := Ratio(f, k, r);
    }
    good := true;
    for r := 1 to k + 1
      invariant good && forall q :: 1 <= q < r ==> !OutOfRange(Ratio(f, k, q))
    {
      if OutOfRange(d[r]) {
        return false;
      }
    }
  }

  /** The largest range from start down at which the search stops, and its discounts. */
  method ComputeGtDiscount(n: int, f: seq<nat>, fofSize: nat, requested: nat, cutoff: int)
    returns (discRange: nat, d: array<Ext>)
    requires |f| == fofSize + 1
    ensures fresh(d) && d.Length == requested + 1
    ensures fofSize == 0 ==> discRange == requested && forall r :: 0 <= r <= requested ==> d[r] == Fin(0.0)
    ensures fofSize > 0 && f[1] == 0 ==> discRange == 0 && forall r :: 0 <= r <= requested ==> d[r] == Fin(0.0)
    ensures fofSize > 0 && f[1] > 0 ==>
              && discRange <= requested && discRange + 1 <= fofSize && Settles(n, f, discRange)
              && (forall k :: discRange < k <= requested && k + 1 <= fofSize ==> !Settles(n, f, k))
              && (discRange == 1 && n == 1 && f[0] > 0 ==> d[1] == Fin(f[1] as real / (f[1] + f[0]) as real))
              && (discRange > 0 && !(discRange == 1 && n == 1 && f[0] > 0) ==>
                   forall r :: 1 <= r <= discRange ==> d[r] == if r <= cutoff then Fin(0.0) else Ratio(f, discRange, r))
  {
    hide Ratio, OutOfRange, CommonTerm;
    discRange := requested;
    d := new Ext[requested + 1](_ => Fin(0.0));
    if fofSize == 0 {
      return;
    }
    if f[1] == 0 {
      discRange := 0;
      return;
    }
    if discRange + 1 > fofSize {
      discRange := fofSize - 1;
    }
    ghost var start := discRange;
    while true
      invariant discRange <= start && start <= requested && start + 1 <= fofSize
      invariant start == requested || start + 1 == fofSize
      invariant forall k :: discRange < k <= start ==> !Settles(n, f, k)
      decreases discRange
    {
      if discRange == 0 {
        return;
      }
      if discRange == 1 && n == 1 && f[0] > 0 {
        d[1] := Fin(f[1] as real / (f[1] + f[0]) as real);
        return;
      }
      var good := false;
      if CommonInRange(f, discRange) {
        good := Discounts(f, discRange, d);
      }
      if good {
        break;
      }
      discRange := discRange - 1;
    }
    ZeroCutoff(d, if cutoff < discRange then cutoff else discRange);
  }

  method ZeroCutoff(d: array<Ext>, last: int)
    requires last < d.Length
    modifies d
    ensures forall r :: 0 <= r < d.Length ==> d[r] == if 1 <= r <= last then Fin(0.0) else old(d[r])
  {
    var r := 1;
    while r <= last
      invariant 1 <= r && (last >= 1 ==> r <= last + 1) && (last < 1 ==> r == 1)
      invariant forall q :: 0 <= q < d.Length ==> d[q] == if 1 <= q < r then Fin(0.0) else old(d[q])
    {
      d[r] := Fin(0.0);
      r := r + 1;
    }
  }
}
