/** Finite sums of reals over an index range, with the few laws the models need. */
module Sums {

  ghost function Sum(n: nat, f: int -> real): real
  {
    if n == 0 then 0.0 else Sum(n - 1, f) + f(n - 1)
  }

  lemma {:induction false} SumEq(n: nat, f: int -> real, g: int -> real)
    requires forall i :: 0 <= i < n ==> f(i) == g(i)
    ensures Sum(n, f) == Sum(n, g)
  {
    if n > 0 {
      SumEq(n - 1, f, g);
    }
  }

  lemma {:induction false} SumZero(n: nat, f: int -> real)
    requires forall i :: 0 <= i < n ==> f(i) == 0.0
    ensures Sum(n, f) == 0.0
  {
    if n > 0 {
      SumZero(n - 1, f);
    }
  }

  lemma {:induction false} SumNonNeg(n: nat, f: int -> real)
    requires forall i :: 0 <= i < n ==> f(i) >= 0.0
    ensures Sum(n, f) >= 0.0
  {
    if n > 0 {
      SumNonNeg(n - 1, f);
    }
  }

  lemma {:induction false} SumAdd(n: nat, f: int -> real, g: int -> real, h: int -> real)
    requires forall i :: 0 <= i < n ==> h(i) == f(i) + g(i)
    ensures Sum(n, h) == Sum(n, f) + Sum(n, g)
  {
    if n > 0 {
      SumAdd(n - 1, f, g, h);
    }
  }

  lemma {:induction false} SumScale(n: nat, c: real, f: int -> real, h: int -> real)
    requires forall i :: 0 <= i < n ==> h(i) == c * f(i)
    ensures Sum(n, h) == c * Sum(n, f)
  {
    if n > 0 {
      SumScale(n - 1, c, f, h);
    }
  }

  /** A sum with one term that may be nonzero. */
  lemma {:induction false} SumPick(n: nat, k: nat, f: int -> real)
    requires k < n
    requires forall i :: 0 <= i < n && i != k ==> f(i) == 0.0
    ensures Sum(n, f) == f(k)
  {
    if k == n - 1 {
      SumZero(n - 1, f);
    } else {
      SumPick(n - 1, k, f);
    }
  }

  lemma {:induction false} SumSwap(m: nat, n: nat, f: (int, int) -> real)
    ensures Sum(m, i => Sum(n, j => f(i, j))) == Sum(n, j => Sum(m, i => f(i, j)))
  {
    if m == 0 {
      SumZero(n, j => Sum(m, i => f(i, j)));
    } else {
      SumSwap(m - 1, n, f);
      SumAdd(n, j => Sum(m - 1, i => f(i, j)), j => f(m - 1, j), j => Sum(m, i => f(i, j)));
    }
  }

  /** Splits a sum by the value of a key that ranges over [0, m). */
  lemma SumGroup(n: nat, m: nat, key: int -> int, f: int -> real)
    requires forall i :: 0 <= i < n ==> 0 <= key(i) < m
    ensures Sum(n, f) == Sum(m, v => Sum(n, i => if key(i) == v then f(i) else 0.0))
  {
    var g := (i: int, v: int) => if key(i) == v then f(i) else 0.0;
    forall i | 0 <= i < n
      ensures f(i) == Sum(m, v => g(i, v))
    {
      SumPick(m, key(i), v => g(i, v));
    }
    SumEq(n, f, i => Sum(m, v => g(i, v)));
    SumSwap(n, m, g);
    var byKey := v => Sum(n, i => g(i, v));
    var byTest := v => Sum(n, i => if key(i) == v then f(i) else 0.0);
    forall v | 0 <= v < m
      ensures byKey(v) == byTest(v)
    {
      SumEq(n, i => g(i, v), i => if key(i) == v then f(i) else 0.0);
    }
    SumEq(m, byKey, byTest);
  }
}
