/** What the score of an alignment is: the logarithm of a product of probabilities, each to the
    power of the longer side of its move. */
module AlignmentScores {
  import opened Sequences
  import opened Joining
  import opened Segmentation
  import opened AlignmentSums
  import opened NBestAlignment
  import opened Backtracking
  import opened ViterbiAlignment

  /** A logarithm turns products of positive numbers into sums. */
  ghost predicate LogLaw(ln: real -> real)
  {
    ln(1.0) == 0.0 && forall p: real, q: real :: p > 0.0 && q > 0.0 ==> ln(Multiplied(p, q)) == ln(p) + ln(q)
  }

  /** The entry a pair of pieces reads: the joined tokens, or the null symbol for none. */
  function PieceName(piece: seq<string>, nullChar: string): string
  {
    if piece == [] then nullChar else Join(piece, "")
  }

  function PieceProb(t: Task, xp: seq<string>, yp: seq<string>): real
  {
    Lookup(t.probs, (PieceName(xp, t.par.nullChar), PieceName(yp, t.par.nullChar)))
  }

  /** Number of tokens of the longer piece. */
  function Longer<T>(xp: seq<T>, yp: seq<T>): nat
  {
    if |xp| < |yp| then |yp| else |xp|
  }

  function Multiplied(p: real, q: real): real
  {
    p * q
  }

  function Power(p: real, n: nat): real
  {
    if n == 0 then 1.0 else Multiplied(Power(p, n - 1), p)
  }

  function Times(n: nat, v: real): real
  {
    n as real * v
  }

  /** Every pair of pieces has a positive probability. */
  ghost predicate AllPositive(t: Task, xps: seq<seq<string>>, yps: seq<seq<string>>)
    requires |xps| == |yps|
  {
    forall k :: 0 <= k < |xps| ==> PieceProb(t, xps[k], yps[k]) > 0.0
  }

  /** The likelihood of a segmentation, from its pieces. */
  function Likelihood(t: Task, xps: seq<seq<string>>, yps: seq<seq<string>>): real
    requires |xps| == |yps|
  {
    if xps == [] then 1.0
    else Multiplied(Likelihood(t, Init(xps), Init(yps)),
                 Power(PieceProb(t, Last(xps), Last(yps)), Longer(Last(xps), Last(yps))))
  }

  /** Tokens of the longer pieces. */
  function LongerTokens<T>(xps: seq<seq<T>>, yps: seq<seq<T>>): nat
    requires |xps| == |yps|
  {
    if xps == [] then 0 else LongerTokens(Init(xps), Init(yps)) + Longer(Last(xps), Last(yps))
  }

  lemma {:induction false} PowerPositive(p: real, n: nat)
    requires p > 0.0
    ensures Power(p, n) > 0.0
  {
    if n > 0 {
      PowerPositive(p, n - 1);
      ProductPositive(Power(p, n - 1), p);
    }
  }

  lemma ProductPositive(a: real, b: real)
    requires a > 0.0 && b > 0.0
    ensures Multiplied(a, b) > 0.0
  {
  }

  lemma {:induction false} LogOfPower(p: real, n: nat, ln: real -> real)
    requires p > 0.0 && LogLaw(ln)
    ensures ln(Power(p, n)) == Times(n, ln(p))
  {
    hide LogLaw, Times, Multiplied;
    LogOfOne(ln);
    if n > 0 {
      LogOfPower(p, n - 1, ln);
      PowerPositive(p, n - 1);
      LogOfProduct(ln, Power(p, n - 1), p);
      Distributes(n, ln(p));
    } else {
      NoTimes(ln(p));
    }
  }

  lemma LogOfOne(ln: real -> real)
    requires LogLaw(ln)
    ensures ln(1.0) == 0.0
  {
  }

  lemma LogOfProduct(ln: real -> real, p: real, q: real)
    requires LogLaw(ln) && p > 0.0 && q > 0.0
    ensures ln(Multiplied(p, q)) == ln(p) + ln(q)
  {
  }

  lemma NoTimes(v: real)
    ensures Times(0, v) == 0.0
  {
  }

  lemma Distributes(n: nat, v: real)
    requires n > 0
    ensures Times(n, v) == Times(n - 1, v) + v
  {
  }

  // ----- one move -----

  /** The move m into (a, b) reads the probability of the two pieces it cuts. */
  lemma MoveReads(t: Task, a: nat, b: nat, m: Move)
    requires m.dx <= a <= |t.x| && m.dy <= b <= |t.y|
    ensures ProbAt(t, a, b, m) == PieceProb(t, t.x[a - m.dx..a], t.y[b - m.dy..b])
  {
  }

  lemma MoveScores(t: Task, ln: real -> real, a: nat, b: nat, m: Move)
    requires m.dx <= a <= |t.x| && m.dy <= b <= |t.y|
    ensures var p := PieceProb(t, t.x[a - m.dx..a], t.y[b - m.dy..b]);
            MoveScore(t, ln, a, b, m)
              == if p > 0.0 then Fin(Times(Longer(t.x[a - m.dx..a], t.y[b - m.dy..b]), ln(p))) else NegInf
  {
    hide ProbAt, PieceProb, Scaled, LogL, Times;
    MoveReads(t, a, b, m);
    ScaledLog(ProbAt(t, a, b, m), ln, Max(m.dx, m.dy));
    LongerIs(t.x[a - m.dx..a], t.y[b - m.dy..b]);
  }

  lemma ScaledLog(p: real, ln: real -> real, k: nat)
    ensures Scaled(LogL(p, ln), k) == if p > 0.0 then Fin(Times(k, ln(p))) else NegInf
  {
    assert Times(k, ln(p)) == ln(p) * k as real;
  }

  lemma LongerIs<T>(xp: seq<T>, yp: seq<T>)
    ensures Longer(xp, yp) == Max(|xp|, |yp|)
  {
  }

  lemma PiecesStep(t: Task, s: seq<Move>, a: nat, b: nat)
    requires a <= |t.x| && b <= |t.y| && Reaches(t, s, a, b) && s != []
    ensures var m := Last(s);
            && Fits(m, a, b) && Reaches(t, Init(s), a - m.dx, b - m.dy)
            && XPieces(t.x, s, a) == XPieces(t.x, Init(s), a - m.dx) + [t.x[a - m.dx..a]]
            && YPieces(t.y, s, b) == YPieces(t.y, Init(s), b - m.dy) + [t.y[b - m.dy..b]]
  {
    hide ViterbiMoves;
  }

  lemma SnocParts<T>(s: seq<T>, x: T)
    ensures Init(s + [x]) == s && Last(s + [x]) == x
  {
  }

  // ----- a whole segmentation -----

  lemma {:induction false} LikelihoodPositive(t: Task, xps: seq<seq<string>>, yps: seq<seq<string>>)
    requires |xps| == |yps| && AllPositive(t, xps, yps)
    ensures Likelihood(t, xps, yps) > 0.0
  {
    hide PieceProb, Longer, Multiplied;
    if xps != [] {
      LikelihoodPositive(t, Init(xps), Init(yps));
      var p := PieceProb(t, Last(xps), Last(yps));
      PowerPositive(p, Longer(Last(xps), Last(yps)));
      ProductPositive(Likelihood(t, Init(xps), Init(yps)), Power(p, Longer(Last(xps), Last(yps))));
    }
  }

  /** The total of a legal segmentation is the logarithm of the product, over its pairs of
      pieces, of their probability to the power of the longer piece's length. */
  lemma {:induction false} TotalIsLog(t: Task, ln: real -> real, s: seq<Move>, a: nat, b: nat)
    requires a <= |t.x| && b <= |t.y| && Reaches(t, s, a, b) && LogLaw(ln)
    ensures |XPieces(t.x, s, a)| == |YPieces(t.y, s, b)|
    ensures var xps, yps := XPieces(t.x, s, a), YPieces(t.y, s, b);
            Total(t, ln, s, a, b) == if AllPositive(t, xps, yps) then Fin(ln(Likelihood(t, xps, yps))) else NegInf
    decreases |s|
  {
    hide PieceProb, MoveScore, Longer, ViterbiMoves, Power, LogLaw, AllPositive, Reaches, Total, Likelihood, Times;
    hide XPieces, YPieces;
    PiecesMatch(t, s, a, b);
    if s == [] {
      EmptyTotal(t, ln, a, b);
    } else {
      PiecesStep(t, s, a, b);
      var m := Last(s);
      TotalIsLog(t, ln, Init(s), a - m.dx, b - m.dy);
      TotalStep(t, ln, s, a, b, XPieces(t.x, Init(s), a - m.dx), YPieces(t.y, Init(s), b - m.dy));
    }
  }

  lemma PiecesMatch(t: Task, s: seq<Move>, a: nat, b: nat)
    requires a <= |t.x| && b <= |t.y| && Reaches(t, s, a, b)
    ensures |XPieces(t.x, s, a)| == |YPieces(t.y, s, b)|
  {
    hide *;
    ReachesMeans(t, s, a, b);
    PiecesRoundTrip(ViterbiMoves(t), s, t.x, a, t.y, b);
  }

  lemma ReachesMeans(t: Task, s: seq<Move>, a: nat, b: nat)
    requires Reaches(t, s, a, b)
    ensures Legal(ViterbiMoves(t), s, a, b)
  {
  }

  lemma EmptyTotal(t: Task, ln: real -> real, a: nat, b: nat)
    requires a <= |t.x| && b <= |t.y| && Reaches(t, [], a, b) && LogLaw(ln)
    ensures XPieces(t.x, [], a) == [] && YPieces(t.y, [], b) == []
    ensures AllPositive(t, [], []) && Total(t, ln, [], a, b) == Fin(ln(Likelihood(t, [], [])))
  {
    LogOfOne(ln);
  }

  lemma TotalStep(t: Task, ln: real -> real, s: seq<Move>, a: nat, b: nat, xps: seq<seq<string>>, yps: seq<seq<string>>)
    requires a <= |t.x| && b <= |t.y| && s != [] && Fits(Last(s), a, b) && LogLaw(ln) && |xps| == |yps|
    requires Reaches(t, s, a, b)
    requires Total(t, ln, Init(s), a - Last(s).dx, b - Last(s).dy)
               == if AllPositive(t, xps, yps) then Fin(ln(Likelihood(t, xps, yps))) else NegInf
    ensures var xs, ys := xps + [t.x[a - Last(s).dx..a]], yps + [t.y[b - Last(s).dy..b]];
            Total(t, ln, s, a, b) == if AllPositive(t, xs, ys) then Fin(ln(Likelihood(t, xs, ys))) else NegInf
  {
    hide PieceProb, MoveScore, Longer, ViterbiMoves, Power, LogLaw, AllPositive, Reaches, Total, Likelihood, Times;
    var m := Last(s);
    var xp, yp := t.x[a - m.dx..a], t.y[b - m.dy..b];
    TotalInit(t, ln, s, a, b);
    MoveScores(t, ln, a, b, m);
    PositiveStep(t, xps, yps, xp, yp);
    if AllPositive(t, xps, yps) && PieceProb(t, xp, yp) > 0.0 {
      LikelihoodStep(t, ln, xps, yps, xp, yp);
    }
  }

  lemma PositiveStep(t: Task, xps: seq<seq<string>>, yps: seq<seq<string>>, xp: seq<string>, yp: seq<string>)
    requires |xps| == |yps|
    ensures AllPositive(t, xps + [xp], yps + [yp]) <==> AllPositive(t, xps, yps) && PieceProb(t, xp, yp) > 0.0
  {
    var xs, ys := xps + [xp], yps + [yp];
    if AllPositive(t, xs, ys) {
      assert PieceProb(t, xs[|xps|], ys[|xps|]) > 0.0;
      forall k | 0 <= k < |xps|
        ensures PieceProb(t, xps[k], yps[k]) > 0.0
      {
        assert PieceProb(t, xs[k], ys[k]) > 0.0;
      }
    }
  }

  lemma LikelihoodStep(t: Task, ln: real -> real, xps: seq<seq<string>>, yps: seq<seq<string>>, xp: seq<string>, yp: seq<string>)
    requires |xps| == |yps| && AllPositive(t, xps, yps) && PieceProb(t, xp, yp) > 0.0 && LogLaw(ln)
    ensures ln(Likelihood(t, xps + [xp], yps + [yp]))
         == Times(Longer(xp, yp), ln(PieceProb(t, xp, yp))) + ln(Likelihood(t, xps, yps))
  {
    hide PieceProb, Longer, Power, LogLaw, AllPositive, Times, Multiplied;
    var p, n := PieceProb(t, xp, yp), Longer(xp, yp);
    SnocParts(xps, xp);
    SnocParts(yps, yp);
    LikelihoodPositive(t, xps, yps);
    PowerPositive(p, n);
    LogOfPower(p, n, ln);
    LogOfProduct(ln, Likelihood(t, xps, yps), Power(p, n));
  }

  ghost predicate AllAre(t: Task, xps: seq<seq<string>>, yps: seq<seq<string>>, p: real)
    requires |xps| == |yps|
  {
    forall k :: 0 <= k < |xps| ==> PieceProb(t, xps[k], yps[k]) == p
  }

  lemma AllAreStep(t: Task, xps: seq<seq<string>>, yps: seq<seq<string>>, xp: seq<string>, yp: seq<string>, p: real)
    requires |xps| == |yps| && AllAre(t, xps + [xp], yps + [yp], p)
    ensures AllAre(t, xps, yps, p) && PieceProb(t, xp, yp) == p
  {
    var xs, ys := xps + [xp], yps + [yp];
    assert PieceProb(t, xs[|xps|], ys[|xps|]) == p;
    forall k | 0 <= k < |xps|
      ensures PieceProb(t, xps[k], yps[k]) == p
    {
      assert PieceProb(t, xs[k], ys[k]) == p;
    }
  }

  /** When all pieces have the same probability p the total is c ln p, where c counts at least the
      tokens of the longer sequence and at most all tokens. */
  lemma {:induction false} EvenTotal(t: Task, ln: real -> real, s: seq<Move>, a: nat, b: nat, p: real) returns (c: nat)
    requires a <= |t.x| && b <= |t.y| && Reaches(t, s, a, b) && p > 0.0
    requires |XPieces(t.x, s, a)| == |YPieces(t.y, s, b)| && AllAre(t, XPieces(t.x, s, a), YPieces(t.y, s, b), p)
    ensures Total(t, ln, s, a, b) == Fin(Times(c, ln(p)))
    ensures a <= c && b <= c && c <= a + b
    decreases |s|
  {
    hide PieceProb, MoveScore, ViterbiMoves, Reaches, Total, XPieces, YPieces, AllAre, Times;
    c := 0;
    if s == [] {
      NoTimes(ln(p));
      EmptyAt(t, ln, a, b);
    } else {
      PiecesStep(t, s, a, b);
      var m := Last(s);
      var xp, yp := t.x[a - m.dx..a], t.y[b - m.dy..b];
      PiecesMatch(t, Init(s), a - m.dx, b - m.dy);
      AllAreStep(t, XPieces(t.x, Init(s), a - m.dx), YPieces(t.y, Init(s), b - m.dy), xp, yp, p);
      var d := EvenTotal(t, ln, Init(s), a - m.dx, b - m.dy, p);
      TotalInit(t, ln, s, a, b);
      MoveScores(t, ln, a, b, m);
      c := Longer(xp, yp) + d;
      SumTimes(Longer(xp, yp), d, ln(p));
    }
  }

  lemma EmptyAt(t: Task, ln: real -> real, a: nat, b: nat)
    requires a <= |t.x| && b <= |t.y| && Reaches(t, [], a, b)
    ensures a == 0 && b == 0 && Total(t, ln, [], a, b) == Fin(0.0)
  {
  }

  lemma SumTimes(c: nat, d: nat, v: real)
    ensures Times(c + d, v) == Times(c, v) + Times(d, v)
  {
  }

  // ----- the searches -----

  ghost predicate Increasing(ln: real -> real)
  {
    forall p: real, q: real :: 0.0 < p < q ==> ln(p) < ln(q)
  }

  /** Pieces of a segmentation of the whole pair. */
  ghost function Xs(t: Task, s: seq<Move>): seq<seq<string>>
  {
    XPieces(t.x, s, |t.x|)
  }

  ghost function Ys(t: Task, s: seq<Move>): seq<seq<string>>
  {
    YPieces(t.y, s, |t.y|)
  }

  /** Every n-best alignment scores the logarithm of the likelihood of its pieces. */
  lemma ScoresAreLogs(t: Task, ln: real -> real, scores: seq<real>, alignX: seq<seq<string>>, alignY: seq<seq<string>>,
                      found: seq<seq<Move>>, k: nat)
    requires Shows(t, ln, scores, alignX, alignY, found) && k < |found| && LogLaw(ln)
    ensures |Xs(t, found[k])| == |Ys(t, found[k])| && AllPositive(t, Xs(t, found[k]), Ys(t, found[k]))
    ensures scores[k] == ln(Likelihood(t, Xs(t, found[k]), Ys(t, found[k])))
  {
    hide AllPositive, Likelihood, Total, Reaches;
    TotalIsLog(t, ln, found[k], |t.x|, |t.y|);
  }

  /** A best alignment is most likely: its pieces have the largest likelihood of all legal
      segmentations without an impossible piece, and the score is its logarithm. */
  lemma BestIsMostLikely(t: Task, ln: real -> real, v: real, s: seq<Move>, r: seq<Move>)
    requires LogLaw(ln) && Increasing(ln) && IsBest(t, ln, |t.x|, |t.y|, v, s) && v > LOWLOGPROB
    requires Reaches(t, r, |t.x|, |t.y|)
    ensures |Xs(t, s)| == |Ys(t, s)| && |Xs(t, r)| == |Ys(t, r)|
    ensures AllPositive(t, Xs(t, s), Ys(t, s)) && v == ln(Likelihood(t, Xs(t, s), Ys(t, s)))
    ensures AllPositive(t, Xs(t, r), Ys(t, r)) ==>
              Likelihood(t, Xs(t, r), Ys(t, r)) <= Likelihood(t, Xs(t, s), Ys(t, s))
  {
    hide AllPositive, Likelihood, Total, Reaches;
    TotalIsLog(t, ln, s, |t.x|, |t.y|);
    TotalIsLog(t, ln, r, |t.x|, |t.y|);
    if AllPositive(t, Xs(t, r), Ys(t, r)) {
      LikelihoodPositive(t, Xs(t, s), Ys(t, s));
      LikelihoodPositive(t, Xs(t, r), Ys(t, r));
    }
  }
}
