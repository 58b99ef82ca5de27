/** The MT19937 generator: its recurrence, its tempering, and the generator that keeps 624
    words of the sequence and advances them in place. */
module MersenneTwister {

  const N: nat := 624
  const M: nat := 397
  const MATRIX_A: bv64 := 0x9908_b0df
  const UPPER_MASK: bv64 := 0x8000_0000
  const LOWER_MASK: bv64 := 0x7fff_ffff
  const WORD: bv64 := 0xffff_ffff
  const DEFAULT_SEED: bv64 := 5489

  // ----- the sequence -----

  /** The value fits in 32 bits. */
  predicate IsWord(y: bv64)
  {
    y & WORD == y
  }

  /** Word k of the initial state, from its predecessor; k goes along for the increment. */
  function InitNext(prev: bv64, k: nat): bv64
    requires k < N
  {
    (1812433253 * (prev ^ (prev >> 30)) + k as bv64) & WORD
  }

  function Initial(seed: bv64, k: nat): bv64
    requires k < N
  {
    if k == 0 then seed & WORD else InitNext(Initial(seed, k - 1), k)
  }

  /** The upper bit of u joined to the lower bits of l, times the twist matrix, added to m. */
  function Twist(u: bv64, l: bv64, m: bv64): bv64
  {
    var y := (u & UPPER_MASK) | (l & LOWER_MASK);
    m ^ (y >> 1) ^ (if y & 1 == 0 then 0 else MATRIX_A)
  }

  /** The infinite sequence behind a seed. */
  function X(seed: bv64, k: nat): bv64
  {
    if k < N then Initial(seed, k)
    else Twist(X(seed, k - N), X(seed, k - N + 1), X(seed, k - N + M))
  }

  lemma XStep(seed: bv64, k: nat)
    ensures X(seed, k + N) == Twist(X(seed, k), X(seed, k + 1), X(seed, k + M))
  {
    hide Twist, Initial;
  }

  /** The recurrence of the generator, in numbers. */
  lemma Recurrence(seed: bv64, k: nat)
    ensures X(seed, k + 624) == Twist(X(seed, k), X(seed, k + 1), X(seed, k + 397))
  {
    hide Twist, Initial;
  }

  /** The initial words: the seed cut to 32 bits, then each from the one before. */
  lemma InitialIs(seed: bv64, k: nat)
    requires 0 < k < 624
    ensures X(seed, 0) == seed & 0xffff_ffff
    ensures X(seed, k) == InitNext(X(seed, k - 1), k)
  {
    hide InitNext;
  }

  lemma Constants()
    ensures MATRIX_A == 0x9908_b0df && UPPER_MASK == 0x8000_0000 && LOWER_MASK == 0x7fff_ffff
    ensures WORD == 0xffff_ffff && DEFAULT_SEED == 5489
  {
  }

  /** Undoes the product with the twist matrix. */
  function Untwist(z: bv64): bv64
  {
    if z & UPPER_MASK == 0 then z << 1 else ((z ^ MATRIX_A) << 1) | 1
  }

  lemma EvenWord(y: bv64)
    requires IsWord(y) && y & 1 == 0
    ensures (y >> 1) & UPPER_MASK == 0 && (y >> 1) << 1 == y
  {
  }

  lemma OddWord(y: bv64)
    requires IsWord(y) && y & 1 == 1
    ensures (y >> 1) & UPPER_MASK == 0 && ((y >> 1) << 1) | 1 == y
  {
  }

  lemma MatrixMarks(h: bv64)
    requires h & UPPER_MASK == 0
    ensures (h ^ MATRIX_A) & UPPER_MASK != 0 && h ^ MATRIX_A ^ MATRIX_A == h
  {
  }

  lemma LastBit(y: bv64)
    ensures y & 1 == 0 || y & 1 == 1
  {
  }

  lemma UntwistsWord(y: bv64)
    requires IsWord(y)
    ensures Untwist((y >> 1) ^ (if y & 1 == 0 then 0 else MATRIX_A)) == y
  {
    LastBit(y);
    if y & 1 == 0 {
      EvenWord(y);
      NothingAdded(y >> 1);
    } else {
      OddWord(y);
      MatrixMarks(y >> 1);
    }
  }

  lemma NothingAdded(h: bv64)
    ensures h ^ 0 == h
  {
  }

  lemma AddedBack(m: bv64, a: bv64, b: bv64)
    ensures m ^ a ^ b ^ m == a ^ b
  {
  }

  lemma JoinedIsWord(u: bv64, l: bv64)
    ensures IsWord((u & UPPER_MASK) | (l & LOWER_MASK))
  {
  }

  /** A twist adds to m an invertible function of the upper bit of u and the lower bits of l. */
  lemma TwistInvertible(u: bv64, l: bv64, m: bv64)
    ensures Untwist(Twist(u, l, m) ^ m) == (u & UPPER_MASK) | (l & LOWER_MASK)
  {
    hide Untwist, IsWord;
    var y := (u & UPPER_MASK) | (l & LOWER_MASK);
    JoinedIsWord(u, l);
    UntwistsWord(y);
    AddedBack(m, y >> 1, if y & 1 == 0 then 0 else MATRIX_A);
  }

  /** Samples of the twist: of nothing, of the lowest bit, of the next one and of the highest. */
  lemma TwistSamples()
    ensures Twist(0, 0, 5489) == 5489 && Twist(0, 1, 0) == 0x9908_b0df && Twist(0, 2, 0) == 1
    ensures Twist(0x8000_0000, 0, 0) == 0x4000_0000 && Twist(0x7fff_ffff, 0x8000_0000, 0) == 0
  {
  }

  /** The state of the default seed begins with these words. */
  lemma DefaultState()
    ensures X(DEFAULT_SEED, 0) == 5489 && X(DEFAULT_SEED, 1) == 1301868182
    ensures X(DEFAULT_SEED, 2) == 2938499221 && X(DEFAULT_SEED, 3) == 2950281878
  {
    assert InitNext(5489, 1) == 1301868182;
    assert InitNext(1301868182, 2) == 2938499221;
    assert InitNext(2938499221, 3) == 2950281878;
  }

  lemma TwistIsWord(u: bv64, l: bv64, m: bv64)
    requires IsWord(u) && IsWord(l) && IsWord(m)
    ensures IsWord(Twist(u, l, m))
  {
  }

  lemma InitialIsWord(seed: bv64, k: nat)
    requires k < N
    ensures IsWord(Initial(seed, k))
  {
    if k == 0 {
      MaskedIsWord(seed);
    } else {
      MaskedIsWord(1812433253 * (Initial(seed, k - 1) ^ (Initial(seed, k - 1) >> 30)) + k as bv64);
    }
  }

  lemma MaskedIsWord(y: bv64)
    ensures IsWord(y & WORD)
  {
  }

  /** The whole sequence stays within 32 bits. */
  lemma {:induction false} SequenceIsWords(seed: bv64, k: nat)
    ensures IsWord(X(seed, k))
  {
    hide Twist, IsWord, Initial;
    if k < N {
      InitialIsWord(seed, k);
    } else {
      SequenceIsWords(seed, k - N);
      SequenceIsWords(seed, k - N + 1);
      SequenceIsWords(seed, k - N + M);
      TwistIsWord(X(seed, k - N), X(seed, k - N + 1), X(seed, k - N + M));
    }
  }

  // ----- tempering -----

  function Xor(a: bv64, b: bv64): bv64
  {
    a ^ b
  }

  function Right11(y: bv64): bv64
  {
    y >> 11
  }

  function Right18(y: bv64): bv64
  {
    y >> 18
  }

  function Left7(y: bv64): bv64
  {
    (y << 7) & 0x9d2c_5680
  }

  function Left15(y: bv64): bv64
  {
    (y << 15) & 0xefc6_0000
  }

  function Temper(x: bv64): bv64
  {
    var a := Xor(x, Right11(x));
    var b := Xor(a, Left7(a));
    var c := Xor(b, Left15(b));
    Xor(c, Right18(c))
  }

  /** Sum of the first powers of the shift by 11, the inverse of its step. */
  function UndoRight11(z: bv64): bv64
  {
    Xor(z, Right11(Xor(z, Right11(z))))
  }

  function UndoLeft7(z: bv64): bv64
  {
    Xor(z, Left7(Xor(z, Left7(Xor(z, Left7(Xor(z, Left7(z))))))))
  }

  /** Undoes the four steps in reverse order; two of them undo themselves. */
  function Untemper(z: bv64): bv64
  {
    var c := Xor(z, Right18(z));
    var b := Xor(c, Left15(c));
    UndoRight11(UndoLeft7(b))
  }

  // Each step adds to y a shifted copy of y. The shifts are linear, and shifting often enough
  // leaves nothing of a 32-bit word.

  lemma XorLaws(a: bv64, b: bv64, c: bv64)
    ensures Xor(Xor(a, b), Xor(b, c)) == Xor(a, c)
    ensures Xor(a, Xor(b, c)) == Xor(Xor(a, b), c)
    ensures Xor(a, 0) == a && Xor(a, a) == 0
  {
  }

  lemma XorIsWord(a: bv64, b: bv64)
    requires IsWord(a) && IsWord(b)
    ensures IsWord(Xor(a, b))
  {
  }

  lemma Right11Linear(a: bv64, b: bv64)
    ensures Right11(Xor(a, b)) == Xor(Right11(a), Right11(b))
  {
  }

  lemma Right18Linear(a: bv64, b: bv64)
    ensures Right18(Xor(a, b)) == Xor(Right18(a), Right18(b))
  {
  }

  lemma Left7Linear(a: bv64, b: bv64)
    ensures Left7(Xor(a, b)) == Xor(Left7(a), Left7(b))
  {
  }

  lemma Left15Linear(a: bv64, b: bv64)
    ensures Left15(Xor(a, b)) == Xor(Left15(a), Left15(b))
  {
  }

  lemma XorTwice(a: bv64, b: bv64)
    ensures Xor(Xor(a, b), b) == a
  {
  }

  lemma Right11IsWord(y: bv64)
    requires IsWord(y)
    ensures IsWord(Right11(y))
  {
  }

  lemma Right18IsWord(y: bv64)
    requires IsWord(y)
    ensures IsWord(Right18(y))
  {
  }

  lemma Left7IsWord(y: bv64)
    ensures IsWord(Left7(y))
  {
  }

  lemma Left15IsWord(y: bv64)
    ensures IsWord(Left15(y))
  {
  }

  lemma Right18Twice(y: bv64)
    requires IsWord(y)
    ensures Right18(Right18(y)) == 0
  {
  }

  lemma Right11Thrice(y: bv64)
    requires IsWord(y)
    ensures Right11(Right11(Right11(y))) == 0
  {
  }

  lemma Left15Twice(y: bv64)
    ensures Left15(Left15(y)) == 0
  {
  }

  lemma Left7FiveTimes(y: bv64)
    ensures Left7(Left7(Left7(Left7(Left7(y))))) == 0
  {
  }

  lemma Down18Undone(y: bv64)
    requires IsWord(y)
    ensures var z := Xor(y, Right18(y)); IsWord(z) && Xor(z, Right18(z)) == y
  {
    hide *;
    Right18IsWord(y);
    XorIsWord(y, Right18(y));
    Right18Linear(y, Right18(y));
    Right18Twice(y);
    XorLaws(y, Right18(y), 0);
  }

  lemma Up15Undone(y: bv64)
    requires IsWord(y)
    ensures var z := Xor(y, Left15(y)); IsWord(z) && Xor(z, Left15(z)) == y
  {
    hide *;
    Left15IsWord(y);
    XorIsWord(y, Left15(y));
    Left15Linear(y, Left15(y));
    Left15Twice(y);
    XorLaws(y, Left15(y), 0);
  }

  lemma UndoRight11Unfold(z: bv64)
    ensures UndoRight11(z) == Xor(z, Right11(Xor(z, Right11(z))))
  {
  }

  lemma Down11Undone(y: bv64)
    requires IsWord(y)
    ensures var z := Xor(y, Right11(y)); IsWord(z) && UndoRight11(z) == y
    ensures var z := UndoRight11(y); IsWord(z) && Xor(z, Right11(z)) == y
  {
    hide *;
    var a := Right11(y);
    var b := Right11(a);
    Right11IsWord(y);
    Right11IsWord(a);
    XorIsWord(y, a);
    XorIsWord(a, b);
    XorIsWord(y, Xor(a, b));
    Right11Thrice(y);
    UndoRight11Unfold(Xor(y, a));
    UndoRight11Unfold(y);
    Right11Linear(y, a);
    Right11Linear(y, b);
    XorLaws(y, a, b);
    XorLaws(a, b, 0);
    XorTwice(y, a);
    Right11Linear(y, Xor(a, b));
    Right11Linear(a, b);
    XorLaws(b, b, 0);
    XorTwice(y, Xor(a, b));
  }

  lemma UndoLeft7Unfold(z: bv64)
    ensures UndoLeft7(z) == Xor(z, Left7(Xor(z, Left7(Xor(z, Left7(Xor(z, Left7(z))))))))
  {
  }

  /** The nested form is the sum of the powers. */
  lemma UndoLeft7Sum(z: bv64)
    ensures var a := Left7(z); var b := Left7(a); var c := Left7(b); var d := Left7(c);
            UndoLeft7(z) == Xor(z, Xor(a, Xor(b, Xor(c, d)))) && Left7(d) == 0
  {
    hide *;
    var a := Left7(z);
    var b := Left7(a);
    var c := Left7(b);
    var d := Left7(c);
    Left7FiveTimes(z);
    UndoLeft7Unfold(z);
    Left7Linear(z, a);
    Left7Linear(z, Xor(a, b));
    Left7Linear(a, b);
    Left7Linear(z, Xor(a, Xor(b, c)));
    Left7Linear(a, Xor(b, c));
    Left7Linear(b, c);
  }

  lemma SumsCancel(y: bv64, a: bv64, b: bv64, c: bv64, d: bv64)
    ensures Xor(Xor(y, Xor(a, Xor(b, Xor(c, d)))), Xor(a, Xor(b, Xor(c, Xor(d, 0))))) == y
    ensures Xor(Xor(y, a), Xor(Xor(a, b), Xor(Xor(b, c), Xor(Xor(c, d), Xor(d, 0))))) == y
  {
    hide *;
    XorLaws(d, d, d);
    XorTwice(y, Xor(a, Xor(b, Xor(c, d))));
    XorTwice(c, d);
    XorTwice(b, c);
    XorTwice(a, b);
    XorTwice(y, a);
  }

  lemma Up7Undone(y: bv64)
    requires IsWord(y)
    ensures var z := Xor(y, Left7(y)); IsWord(z) && UndoLeft7(z) == y
    ensures var z := UndoLeft7(y); IsWord(z) && Xor(z, Left7(z)) == y
  {
    hide *;
    var a := Left7(y);
    var b := Left7(a);
    var c := Left7(b);
    var d := Left7(c);
    Left7IsWord(y);
    Left7IsWord(a);
    Left7IsWord(b);
    Left7IsWord(c);
    XorIsWord(y, a);
    XorIsWord(c, d);
    XorIsWord(b, Xor(c, d));
    XorIsWord(a, Xor(b, Xor(c, d)));
    XorIsWord(y, Xor(a, Xor(b, Xor(c, d))));
    UndoLeft7Sum(y);
    UndoLeft7Sum(Xor(y, a));
    SumsCancel(y, a, b, c, d);
    Left7Linear(y, a);
    Left7Linear(a, b);
    Left7Linear(b, c);
    Left7Linear(c, d);
    Left7Linear(y, Xor(a, Xor(b, Xor(c, d))));
    Left7Linear(a, Xor(b, Xor(c, d)));
    Left7Linear(b, Xor(c, d));
  }

  lemma TemperUnfold(x: bv64)
    ensures var a := Xor(x, Right11(x)); var b := Xor(a, Left7(a)); var c := Xor(b, Left15(b));
            Temper(x) == Xor(c, Right18(c))
    ensures var c := Xor(x, Right18(x)); var b := Xor(c, Left15(c));
            Untemper(x) == UndoRight11(UndoLeft7(b))
  {
  }

  /** Samples of the tempering: of the lowest and the highest bit and of all. */
  lemma TemperSamples()
    ensures Temper(1) == 0x0040_0091 && Temper(0x8000_0000) == 0x8810_2204 && Temper(0xffff_ffff) == 0x6fe0_1bf8
  {
  }

  /** Tempering is a bijection on 32-bit words. */
  lemma TemperBijective(x: bv64)
    requires IsWord(x)
    ensures IsWord(Temper(x)) && Untemper(Temper(x)) == x
    ensures IsWord(Untemper(x)) && Temper(Untemper(x)) == x
  {
    hide *;
    var a := Xor(x, Right11(x));
    var b := Xor(a, Left7(a));
    var c := Xor(b, Left15(b));
    Down11Undone(x);
    Up7Undone(a);
    Up15Undone(b);
    Down18Undone(c);
    TemperUnfold(x);
    TemperUnfold(Temper(x));
    var c1 := Xor(x, Right18(x));
    var b1 := Xor(c1, Left15(c1));
    Down18Undone(x);
    Up15Undone(c1);
    Up7Undone(b1);
    Down11Undone(UndoLeft7(b1));
    TemperUnfold(Untemper(x));
  }

  // ----- the generator -----

  /** The buffer holds words first .. first + 624 of the sequence, the part before k already
      replaced by the words 624 further on. */
  ghost predicate Window(mt: seq<bv64>, seed: bv64, first: nat, k: nat)
  {
    && |mt| == N && k <= N
    && (forall i :: 0 <= i < k ==> mt[i] == X(seed, first + N + i))
    && (forall i :: k <= i < N ==> mt[i] == X(seed, first + i))
  }

  /** What the step at k reads is what the recurrence needs. */
  lemma WindowStep(mt: seq<bv64>, seed: bv64, first: nat, k: nat)
    requires Window(mt, seed, first, k) && k < N
    ensures var v := Twist(mt[k], mt[(k + 1) % N], mt[if k < N - M then k + M else k + M - N]);
            v == X(seed, first + N + k) && Window(mt[k := v], seed, first, k + 1)
  {
    hide X, Twist;
    XStep(seed, first + k);
    assert (k + 1) % N == if k + 1 == N then 0 else k + 1;
  }

  lemma WindowWraps(mt: seq<bv64>, seed: bv64, first: nat)
    requires Window(mt, seed, first, N)
    ensures Window(mt, seed, first + N, 0)
  {
    hide X;
  }

  class Generator {
    const mt: array<bv64>
    var mti: nat
    /** The seed in use and the number of words drawn since it was set. */
    ghost var seed: bv64
    ghost var drawn: nat

    ghost predicate Valid()
      reads this, mt
    {
      && mt.Length == N
      && (mti == N + 1 ==> seed == DEFAULT_SEED && drawn == 0)
      && (mti != N + 1 ==> mti <= N && mti <= drawn + N && Window(mt[..], seed, drawn + N - mti, 0))
    }

    constructor ()
      ensures Valid() && fresh(mt) && seed == DEFAULT_SEED && drawn == 0
    {
      mt := new bv64[N];
      mti, seed, drawn := N + 1, DEFAULT_SEED, 0;
    }

    /** Starts the sequence of a seed. */
    method Seed(s: bv64)
      requires mt.Length == N
      modifies this, mt
      ensures Valid() && seed == s && drawn == 0 && mti == N
    {
      hide Initial, InitNext;
      mt[0] := s & WORD;
      InitialStarts(s);
      mti := 1;
      while mti < N
        invariant 1 <= mti <= N
        invariant forall i :: 0 <= i < mti ==> mt[i] == Initial(s, i)
      {
        InitialNext(s, mti);
        mt[mti] := InitNext(mt[mti - 1], mti);
        mti := mti + 1;
      }
      seed, drawn := s, 0;
      InitialWindow(mt[..], s);
    }

    /** Replaces all 624 words by the next 624. */
    method Refill(ghost first: nat)
      requires mt.Length == N && Window(mt[..], seed, first, 0)
      modifies mt
      ensures Window(mt[..], seed, first + N, 0)
    {
      hide Window, X, Twist;
      var k := 0;
      while k < N - M
        invariant k <= N - M && Window(mt[..], seed, first, k)
      {
        WindowStep(mt[..], seed, first, k);
        mt[k] := Twist(mt[k], mt[k + 1], mt[k + M]);
        k := k + 1;
      }
      while k < N - 1
        invariant N - M <= k <= N - 1 && Window(mt[..], seed, first, k)
      {
        WindowStep(mt[..], seed, first, k);
        mt[k] := Twist(mt[k], mt[k + 1], mt[k + M - N]);
        k := k + 1;
      }
      WindowStep(mt[..], seed, first, N - 1);
      mt[N - 1] := Twist(mt[N - 1], mt[0], mt[M - 1]);
      WindowWraps(mt[..], seed, first);
    }

    /** The next output: the tempering of the next word of the sequence. */
    method Next() returns (y: bv64)
      requires Valid()
      modifies this, mt
      ensures Valid() && seed == old(seed) && drawn == old(drawn) + 1
      ensures y == Temper(X(seed, N + old(drawn))) && IsWord(y)
    {
      hide X, Temper, IsWord, Twist;
      if mti >= N {
        if mti == N + 1 {
          Seed(DEFAULT_SEED);
        }
        Refill(drawn);
        mti := 0;
      }
      y := mt[mti];
      mti := mti + 1;
      drawn := drawn + 1;
      SequenceIsWords(seed, N + drawn - 1);
      TemperBijective(y);
      y := Temper(y);
    }

    /** Any number of outputs. */
    method Outputs(n: nat) returns (ys: seq<bv64>)
      requires Valid()
      modifies this, mt
      ensures Valid() && seed == old(seed) && drawn == old(drawn) + n && |ys| == n
      ensures forall i :: 0 <= i < n ==> ys[i] == Temper(X(seed, N + old(drawn) + i))
    {
      hide X, Temper;
      ys := [];
      for i := 0 to n
        invariant Valid() && seed == old(seed) && drawn == old(drawn) + i && |ys| == i
        invariant forall k :: 0 <= k < i ==> ys[k] == Temper(X(seed, N + old(drawn) + k))
      {
        var y := Next();
        ys := ys + [y];
      }
    }
  }

  lemma InitialStarts(s: bv64)
    ensures Initial(s, 0) == s & WORD
  {
  }

  lemma InitialNext(s: bv64, k: nat)
    requires 0 < k < N
    ensures Initial(s, k) == InitNext(Initial(s, k - 1), k)
  {
    hide InitNext;
  }

  lemma InitialWindow(mt: seq<bv64>, s: bv64)
    requires |mt| == N && forall i :: 0 <= i < N ==> mt[i] == Initial(s, i)
    ensures Window(mt, s, 0, 0)
  {
    hide Initial, Twist;
  }
}
