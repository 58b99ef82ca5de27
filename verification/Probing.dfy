/** Triangular probing over a table whose size is a power of two visits every slot. */
module Probing {
  import opened Sorting

  predicate IsPowerOf2(p: nat)
  {
    p == 1 || (p > 1 && p % 2 == 0 && IsPowerOf2(p / 2))
  }

  /** The smallest power of two larger than x. */
  function NextPowerOf2(x: nat): (p: nat)
    ensures IsPowerOf2(p) && x < p
    ensures x > 0 ==> p <= 2 * x
  {
    if x == 0 then 1 else 2 * NextPowerOf2(x / 2)
  }

  function Triangle(k: nat): nat
  {
    k * (k + 1) / 2
  }

  /** Slot of the k-th probe. */
  function Slot(h: nat, k: nat, p: nat): (s: nat)
    requires p > 0
    ensures s < p
  {
    (h + Triangle(k)) % p
  }

  lemma {:induction false} TriangleStep(k: nat)
    ensures 2 * Triangle(k) == k * (k + 1)
    ensures Triangle(k + 1) == Triangle(k) + k + 1
  {
    if k > 0 {
      TriangleStep(k - 1);
      assert k * (k + 1) == (k - 1) * k + 2 * k;
    }
    assert (k + 1) * (k + 2) == k * (k + 1) + 2 * (k + 1);
  }

  lemma AddMod(a: nat, b: nat, p: nat)
    requires p > 0
    ensures (a % p + b) % p == (a + b) % p
  {
    var q := a / p;
    assert a == q * p + a % p;
    ModShift(a % p + b, q, p);
  }

  lemma {:induction false} ModShift(x: nat, q: nat, p: nat)
    requires p > 0
    ensures (x + q * p) % p == x % p
  {
    if q > 0 {
      ModShift(x, q - 1, p);
      assert x + q * p == (x + (q - 1) * p) + p;
      PlusModulus(x + (q - 1) * p, p);
    }
  }

  lemma PlusModulus(x: nat, p: nat)
    requires p > 0
    ensures (x + p) % p == x % p
  {
    var q, r := x / p, x % p;
    assert x + p == (q + 1) * p + r;
    Remainder(x + p, q + 1, r, p);
  }

  lemma Remainder(x: nat, q: nat, r: nat, p: nat)
    requires p > 0 && x == q * p + r && r < p
    ensures x % p == r
  {
    var d := x / p - q;
    assert x == (x / p) * p + x % p;
    assert d * p == r - x % p;
    MultipleBounds(d, p);
  }

  lemma MultipleBounds(d: int, p: int)
    requires p > 0
    ensures d > 0 ==> d * p >= p
    ensures d < 0 ==> d * p <= -p
  {
  }

  /** The loop's step from one probe to the next. */
  lemma NextSlot(h: nat, k: nat, p: nat)
    requires p > 0
    ensures (Slot(h, k, p) + (k + 1)) % p == Slot(h, k + 1, p)
  {
    hide Triangle;
    TriangleStep(k);
    AddMod(h + Triangle(k), k + 1, p);
  }

  /** A power of two that divides a product with an odd factor divides the other factor. */
  lemma {:induction false} OddFactor(p: nat, a: nat, b: nat, q: nat) returns (r: nat)
    requires IsPowerOf2(p) && a % 2 == 1 && a * b == p * q
    ensures b == p * r
  {
    if p == 1 {
      r := b;
    } else {
      var p2 := p / 2;
      assert p == 2 * p2;
      assert a * b == 2 * (p2 * q);
      EvenFactor(a, b, p2 * q);
      var b2 := b / 2;
      assert a * b == 2 * (a * b2);
      r := OddFactor(p2, a, b2, q);
    }
  }

  lemma EvenFactor(a: nat, b: nat, c: nat)
    requires a % 2 == 1 && a * b == 2 * c
    ensures b % 2 == 0
  {
    var k := a / 2;
    assert a == 2 * k + 1;
    assert a * b == 2 * (k * b) + b;
  }

  lemma SameResidue(x: nat, y: nat, p: nat) returns (q: nat)
    requires p > 0 && x <= y && x % p == y % p
    ensures y - x == p * q
  {
    var d := y / p - x / p;
    assert x == p * (x / p) + x % p && y == p * (y / p) + y % p;
    assert y - x == p * d;
    MultipleBounds(d, p);
    q := d;
  }

  lemma SmallMultiple(x: nat, p: nat, r: nat)
    requires 0 < x < p
    ensures x != p * r
  {
    MultipleBounds(r, p);
  }

  /** The distance between two probes is no multiple of the table size. */
  lemma GapNotMultiple(i: nat, j: nat, p: nat, q: nat)
    requires IsPowerOf2(p) && i < j < p
    ensures (j - i) * (i + j + 1) != 2 * (p * q)
  {
    hide Triangle;
    var a, b: nat := j - i, i + j + 1;
    assert (2 * p) * q == 2 * (p * q);
    if a * b == (2 * p) * q {
      if a % 2 == 1 {
        var r := OddFactor(2 * p, a, b, q);
        SmallMultiple(b, 2 * p, r);
      } else {
        var r := OddFactor(2 * p, b, a, q);
        SmallMultiple(a, 2 * p, r);
      }
    }
  }

  /** The first p probes visit different slots. */
  lemma SlotsDistinct(h: nat, i: nat, j: nat, p: nat)
    requires IsPowerOf2(p) && i < j < p
    ensures Slot(h, i, p) != Slot(h, j, p)
  {
    hide Triangle, IsPowerOf2;
    TriangleGap(i, j);
    var x, y := h + Triangle(i), h + Triangle(j);
    if x % p == y % p {
      var q := SameResidue(x, y, p);
      GapNotMultiple(i, j, p, q);
    }
  }

  lemma TriangleGap(i: nat, j: nat)
    requires i < j
    ensures Triangle(i) < Triangle(j)
    ensures 2 * (Triangle(j) - Triangle(i)) == (j - i) * (i + j + 1)
  {
    TriangleStep(i);
    TriangleStep(j);
    Difference(i, j);
  }

  lemma Difference(i: nat, j: nat)
    requires i < j
    ensures j * (j + 1) - i * (i + 1) == (j - i) * (i + j + 1)
    ensures (j - i) * (i + j + 1) > 0
  {
    var d := j - i;
    assert j == i + d;
    assert j * (j + 1) == i * (i + 1) + d * (2 * i + d + 1);
  }

  function Probes(h: nat, p: nat): (s: seq<nat>)
    requires p > 0
    ensures |s| == p && forall k :: 0 <= k < p ==> s[k] == Slot(h, k, p)
  {
    seq(p, k requires 0 <= k < p => Slot(h, k, p))
  }

  /** Every slot is reached within the first p probes. */
  lemma EverySlotReached(h: nat, p: nat, e: nat) returns (k: nat)
    requires IsPowerOf2(p) && e < p
    ensures k < p && Slot(h, k, p) == e
  {
    var probes := Probes(h, p);
    forall i, j | 0 <= i < j < p
      ensures probes[i] != probes[j]
    {
      SlotsDistinct(h, i, j, p);
    }
    if e !in probes {
      MissingIsSmaller(probes, p, e);
    }
    k :| 0 <= k < p && probes[k] == e;
  }
}
