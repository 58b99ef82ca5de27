/** The few facts about products and quotients of reals that the proofs call by name. */
module Arithmetic {

  lemma Distribute(a: real, b: real, c: real)
    ensures a * (b + c) == a * b + a * c
  {
  }

  lemma ZeroTimes(x: real)
    ensures 0.0 * x == 0.0 && x * 0.0 == 0.0
  {
  }

  lemma ProductNotNegative(x: real, y: real)
    requires x >= 0.0 && y >= 0.0
    ensures x * y >= 0.0
  {
  }

  lemma QuotientsAdd(x: real, y: real, d: real)
    requires d != 0.0
    ensures x / d + y / d == (x + y) / d
  {
  }

  lemma TimesQuotient(z: real, d: real)
    requires d != 0.0
    ensures d * (z / d) == z
  {
  }

  lemma QuotientIs(y: real, z: real, d: real)
    requires d != 0.0 && y * d == z
    ensures y == z / d
  {
  }
}
