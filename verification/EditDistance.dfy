/** Edit distance between two word sequences, as a recursion over prefixes and as a minimum
    over edit scripts. With free set, inserting word 0 costs nothing. */
module EditDistance {
  import opened Sequences

  datatype Edit = Align | Delete | Insert

  function Min(a: int, b: int): int { if a < b then a else b }

  function InsertCost(w: int, free: bool): nat { if free && w == 0 then 0 else 1 }

  function SubstCost(w: int, v: int): nat { if w == v then 0 else 1 }

  /** Distance from the hypothesis prefix h[..i] to the reference prefix r[..j]. */
  function PrefixDist(h: seq<int>, i: nat, r: seq<int>, j: nat, free: bool): nat
    requires i <= |h| && j <= |r|
    decreases i + j
  {
    if i == 0 then j
    else
      var ins := PrefixDist(h, i - 1, r, j, free) + InsertCost(h[i - 1], free);
      if j == 0 then ins
      else Min(Min(ins, PrefixDist(h, i, r, j - 1, free) + 1),
               PrefixDist(h, i - 1, r, j - 1, free) + SubstCost(h[i - 1], r[j - 1]))
  }

  function Dist(h: seq<int>, r: seq<int>, free: bool): nat
  {
    PrefixDist(h, |h|, r, |r|, free)
  }

  /** One unfolding, for proofs that keep the definition hidden. */
  lemma DistStep(h: seq<int>, i: nat, r: seq<int>, j: nat, free: bool)
    requires i <= |h| && j <= |r|
    ensures i == 0 ==> PrefixDist(h, i, r, j, free) == j
    ensures i > 0 && j == 0 ==>
              PrefixDist(h, i, r, j, free) == PrefixDist(h, i - 1, r, j, free) + InsertCost(h[i - 1], free)
    ensures i > 0 && j > 0 ==>
              PrefixDist(h, i, r, j, free) ==
              Min(Min(PrefixDist(h, i - 1, r, j, free) + InsertCost(h[i - 1], free),
                      PrefixDist(h, i, r, j - 1, free) + 1),
                  PrefixDist(h, i - 1, r, j - 1, free) + SubstCost(h[i - 1], r[j - 1]))
  {
  }

  /** Only the prefixes matter. */
  lemma {:induction false} PrefixFrame(h: seq<int>, h': seq<int>, i: nat, r: seq<int>, j: nat, free: bool)
    requires i <= |h| && i <= |h'| && j <= |r| && h[..i] == h'[..i]
    ensures PrefixDist(h, i, r, j, free) == PrefixDist(h', i, r, j, free)
    decreases i + j
  {
    hide PrefixDist;
    DistStep(h, i, r, j, free);
    DistStep(h', i, r, j, free);
    if i > 0 {
      assert h[i - 1] == h[..i][i - 1] == h'[..i][i - 1] == h'[i - 1];
      assert h[..i - 1] == h[..i][..i - 1] == h'[..i][..i - 1] == h'[..i - 1];
      PrefixFrame(h, h', i - 1, r, j, free);
      if j > 0 {
        PrefixFrame(h, h', i, r, j - 1, free);
        PrefixFrame(h, h', i - 1, r, j - 1, free);
      }
    }
  }

  // ----- edit scripts -----

  /** The script e takes i hypothesis words to j reference words. */
  predicate Edits(e: seq<Edit>, i: nat, j: nat)
    decreases |e|
  {
    if e == [] then i == 0 && j == 0
    else match Last(e)
      case Align => i > 0 && j > 0 && Edits(Init(e), i - 1, j - 1)
      case Delete => j > 0 && Edits(Init(e), i, j - 1)
      case Insert => i > 0 && Edits(Init(e), i - 1, j)
  }

  function EditCost(e: seq<Edit>, h: seq<int>, i: nat, r: seq<int>, j: nat, free: bool): nat
    requires Edits(e, i, j) && i <= |h| && j <= |r|
    decreases |e|
  {
    if e == [] then 0
    else match Last(e)
      case Align => EditCost(Init(e), h, i - 1, r, j - 1, free) + SubstCost(h[i - 1], r[j - 1])
      case Delete => EditCost(Init(e), h, i, r, j - 1, free) + 1
      case Insert => EditCost(Init(e), h, i - 1, r, j, free) + InsertCost(h[i - 1], free)
  }

  lemma {:induction false} DistIsLowerBound(e: seq<Edit>, h: seq<int>, i: nat, r: seq<int>, j: nat, free: bool)
    requires Edits(e, i, j) && i <= |h| && j <= |r|
    ensures PrefixDist(h, i, r, j, free) <= EditCost(e, h, i, r, j, free)
    decreases |e|
  {
    hide PrefixDist;
    DistStep(h, i, r, j, free);
    if j > 0 { DistStep(h, i, r, j - 1, free); }
    if e != [] {
      match Last(e)
      case Align => DistIsLowerBound(Init(e), h, i - 1, r, j - 1, free);
      case Delete => DistIsLowerBound(Init(e), h, i, r, j - 1, free);
      case Insert => DistIsLowerBound(Init(e), h, i - 1, r, j, free);
    }
  }

  lemma {:induction false} BestScript(h: seq<int>, i: nat, r: seq<int>, j: nat, free: bool) returns (e: seq<Edit>)
    requires i <= |h| && j <= |r|
    ensures Edits(e, i, j) && EditCost(e, h, i, r, j, free) == PrefixDist(h, i, r, j, free)
    decreases i + j
  {
    hide PrefixDist;
    DistStep(h, i, r, j, free);
    if i == 0 && j == 0 { return []; }
    if j > 0 { DistStep(h, i, r, j - 1, free); }
    var d := PrefixDist(h, i, r, j, free);
    var init, last;
    if i > 0 && d == PrefixDist(h, i - 1, r, j, free) + InsertCost(h[i - 1], free) {
      init := BestScript(h, i - 1, r, j, free);
      last := Insert;
    } else if i == 0 || d == PrefixDist(h, i, r, j - 1, free) + 1 {
      init := BestScript(h, i, r, j - 1, free);
      last := Delete;
    } else {
      init := BestScript(h, i - 1, r, j - 1, free);
      last := Align;
    }
    e := init + [last];
    assert Init(e) == init && Last(e) == last;
  }

  /** The distance is the least cost of an edit script. */
  lemma DistIsMinimum(h: seq<int>, r: seq<int>, free: bool)
    ensures exists e :: Edits(e, |h|, |r|) && EditCost(e, h, |h|, r, |r|, free) == Dist(h, r, free)
    ensures forall e :: Edits(e, |h|, |r|) ==> Dist(h, r, free) <= EditCost(e, h, |h|, r, |r|, free)
  {
    var e := BestScript(h, |h|, r, |r|, free);
    forall e | Edits(e, |h|, |r|)
      ensures Dist(h, r, free) <= EditCost(e, h, |h|, r, |r|, free)
    {
      DistIsLowerBound(e, h, |h|, r, |r|, free);
    }
  }

  /** Free insertion of word 0 can only help. */
  lemma {:induction false} FreeIsCheaper(h: seq<int>, i: nat, r: seq<int>, j: nat)
    requires i <= |h| && j <= |r|
    ensures PrefixDist(h, i, r, j, true) <= PrefixDist(h, i, r, j, false)
    decreases i + j
  {
    hide PrefixDist;
    DistStep(h, i, r, j, true);
    DistStep(h, i, r, j, false);
    if i > 0 {
      FreeIsCheaper(h, i - 1, r, j);
      if j > 0 {
        FreeIsCheaper(h, i, r, j - 1);
        FreeIsCheaper(h, i - 1, r, j - 1);
      }
    }
  }

  lemma {:induction false} LengthGap(b: seq<int>, j: nat, c: seq<int>, k: nat)
    requires j <= |b| && k <= |c|
    ensures k <= j + PrefixDist(b, j, c, k, false)
    decreases j + k
  {
    if j > 0 {
      LengthGap(b, j - 1, c, k);
      if k > 0 {
        LengthGap(b, j, c, k - 1);
        LengthGap(b, j - 1, c, k - 1);
      }
    }
  }

  // ----- what the distance is worth -----

  function Longer(a: nat, b: nat): nat
  {
    if a < b then b else a
  }

  /** Positions below i at which h and r hold different words. */
  function Differing(h: seq<int>, r: seq<int>, i: nat): nat
    requires i <= |h| && i <= |r|
  {
    if i == 0 then 0 else Differing(h, r, i - 1) + (if h[i - 1] != r[i - 1] then 1 else 0)
  }

  /** Words of h[..i] other than word 0. */
  function RealWords(h: seq<int>, i: nat): nat
    requires i <= |h|
  {
    if i == 0 then 0 else RealWords(h, i - 1) + (if h[i - 1] != 0 then 1 else 0)
  }

  /** Between the difference of the lengths and the longer length. */
  lemma {:induction false} DistWithin(h: seq<int>, i: nat, r: seq<int>, j: nat)
    requires i <= |h| && j <= |r|
    ensures i <= j + PrefixDist(h, i, r, j, false) && j <= i + PrefixDist(h, i, r, j, false)
    ensures PrefixDist(h, i, r, j, false) <= Longer(i, j)
    decreases i + j
  {
    hide PrefixDist;
    DistStep(h, i, r, j, false);
    if i > 0 {
      DistWithin(h, i - 1, r, j);
      if j > 0 {
        DistWithin(h, i, r, j - 1);
        DistWithin(h, i - 1, r, j - 1);
      }
    }
  }

  /** Equally long sequences are at most as far apart as they differ position by position. */
  lemma {:induction false} DistAtMostDiffering(h: seq<int>, r: seq<int>, i: nat, free: bool)
    requires i <= |h| && i <= |r|
    ensures PrefixDist(h, i, r, i, free) <= Differing(h, r, i)
  {
    hide PrefixDist;
    DistStep(h, i, r, i, free);
    if i > 0 {
      DistAtMostDiffering(h, r, i - 1, free);
    }
  }

  /** Only equal sequences are at distance zero. */
  lemma {:induction false} DistZero(h: seq<int>, i: nat, r: seq<int>, j: nat)
    requires i <= |h| && j <= |r|
    ensures PrefixDist(h, i, r, j, false) == 0 <==> h[..i] == r[..j]
    decreases i + j
  {
    hide PrefixDist;
    DistStep(h, i, r, j, false);
    DistWithin(h, i, r, j);
    if i == j && i > 0 {
      DistZero(h, i - 1, r, j - 1);
      assert h[..i] == h[..i - 1] + [h[i - 1]] && r[..j] == r[..j - 1] + [r[j - 1]];
    }
  }

  /** With word 0 free, all other words are inserted into an empty reference at cost one. */
  lemma {:induction false} FreeToEmpty(h: seq<int>, i: nat, r: seq<int>)
    requires i <= |h|
    ensures PrefixDist(h, i, r, 0, true) == RealWords(h, i)
  {
    if i > 0 {
      FreeToEmpty(h, i - 1, r);
    }
  }

  /** Going by way of b is no shorter. */
  lemma {:induction false} Triangle(a: seq<int>, i: nat, b: seq<int>, j: nat, c: seq<int>, k: nat)
    requires i <= |a| && j <= |b| && k <= |c|
    ensures PrefixDist(a, i, c, k, true) <= PrefixDist(a, i, b, j, true) + PrefixDist(b, j, c, k, false)
    decreases i + j + k
  {
    hide PrefixDist;
    DistStep(a, i, b, j, true);
    DistStep(b, j, c, k, false);
    DistStep(a, i, c, k, true);
    if i == 0 {
      LengthGap(b, j, c, k);
    } else {
      Triangle(a, i - 1, b, j, c, k);
      if j > 0 {
        Triangle(a, i, b, j - 1, c, k);
        Triangle(a, i - 1, b, j - 1, c, k);
      }
      if k > 0 {
        Triangle(a, i, b, j, c, k - 1);
        if j > 0 {
          Triangle(a, i, b, j - 1, c, k - 1);
          Triangle(a, i - 1, b, j - 1, c, k - 1);
        }
      }
    }
  }

  lemma {:induction false} SelfDistance(h: seq<int>, i: nat)
    requires i <= |h|
    ensures PrefixDist(h, i, h, i, false) == 0
  {
    if i > 0 {
      SelfDistance(h, i - 1);
    }
  }

  /** A common last word keeps a bound between two distances. */
  lemma {:induction false} DistSnoc(a: seq<int>, b: seq<int>, w: int, r: seq<int>, j: nat, free: bool, k: nat)
    requires j <= |r|
    requires forall m :: 0 <= m <= j ==> PrefixDist(a, |a|, r, m, free) <= PrefixDist(b, |b|, r, m, free) + k
    ensures PrefixDist(a + [w], |a| + 1, r, j, free) <= PrefixDist(b + [w], |b| + 1, r, j, free) + k
  {
    hide PrefixDist;
    DistStep(a + [w], |a| + 1, r, j, free);
    DistStep(b + [w], |b| + 1, r, j, free);
    PrefixFrame(a, a + [w], |a|, r, j, free);
    PrefixFrame(b, b + [w], |b|, r, j, free);
    if j > 0 {
      PrefixFrame(a, a + [w], |a|, r, j - 1, free);
      PrefixFrame(b, b + [w], |b|, r, j - 1, free);
      DistSnoc(a, b, w, r, j - 1, free, k);
    }
  }

  /** An empty reference leaves only insertions. */
  lemma {:induction false} DistToEmpty(h: seq<int>, i: nat, r: seq<int>)
    requires i <= |h|
    ensures PrefixDist(h, i, r, 0, false) == i
  {
    if i > 0 {
      DistToEmpty(h, i - 1, r);
    }
  }

  // ----- the one-row computation -----

  ghost function Row(hyp: seq<int>, i: nat, ref: seq<int>): seq<int>
    requires i <= |hyp|
  {
    seq(|ref| + 1, j requires 0 <= j <= |ref| => PrefixDist(hyp, i, ref, j, false))
  }

  /** The row after one more hypothesis word w. */
  ghost predicate NextRow(row: seq<int>, next: seq<int>, i: int, w: int, ref: seq<int>)
  {
    && |row| == |next| == |ref| + 1
    && row[0] == i && next[0] == i + 1
    && forall j :: 0 <= j < |ref| ==>
         next[j + 1] == Min(Min(row[j + 1] + 1, next[j] + 1), row[j] + SubstCost(w, ref[j]))
  }

  lemma RowsFollow(hyp: seq<int>, i: nat, ref: seq<int>)
    requires i < |hyp|
    ensures NextRow(Row(hyp, i, ref), Row(hyp, i + 1, ref), i, hyp[i], ref)
  {
    hide PrefixDist;
    DistStep(hyp, i, ref, 0, false);
    DistToEmpty(hyp, i, ref);
    DistToEmpty(hyp, i + 1, ref);
    forall j | 0 <= j < |ref|
      ensures PrefixDist(hyp, i + 1, ref, j + 1, false) ==
              Min(Min(PrefixDist(hyp, i, ref, j + 1, false) + 1, PrefixDist(hyp, i + 1, ref, j, false) + 1),
                  PrefixDist(hyp, i, ref, j, false) + SubstCost(hyp[i], ref[j]))
    {
      DistStep(hyp, i + 1, ref, j + 1, false);
    }
  }

  /** Overwrites one row of the table by the next. */
  method UpdateRow(nodeScores: array<int>, iHyp: nat, word: int, ref: seq<int>, ghost next: seq<int>)
    requires NextRow(nodeScores[..], next, iHyp, word, ref)
    modifies nodeScores
    ensures nodeScores[..] == next
  {
    ghost var row := nodeScores[..];
    var prevScore := iHyp;
    nodeScores[0] := iHyp + 1;
    for iRef := 0 to |ref|
      invariant prevScore == row[iRef]
      invariant nodeScores[..iRef + 1] == next[..iRef + 1]
      invariant nodeScores[iRef + 1..] == row[iRef + 1..]
    {
      var subScore := prevScore + (if word == ref[iRef] then 0 else 1);
      assert nodeScores[iRef + 1] == nodeScores[iRef + 1..][0] == row[iRef + 1];
      assert nodeScores[iRef] == nodeScores[..iRef + 1][iRef] == next[iRef];
      prevScore := nodeScores[iRef + 1];
      nodeScores[iRef + 1] := Min(Min(prevScore + 1, nodeScores[iRef] + 1), subScore);
    }
  }

  lemma DistanceFacts(hyp: seq<int>, ref: seq<int>)
    ensures Dist(hyp, ref, false) <= Longer(|hyp|, |ref|)
    ensures |hyp| <= |ref| + Dist(hyp, ref, false) && |ref| <= |hyp| + Dist(hyp, ref, false)
    ensures Dist(hyp, ref, false) == 0 <==> hyp == ref
    ensures |hyp| == |ref| ==> Dist(hyp, ref, false) <= Differing(hyp, ref, |ref|)
  {
    hide PrefixDist;
    DistWithin(hyp, |hyp|, ref, |ref|);
    DistZero(hyp, |hyp|, ref, |ref|);
    assert hyp[..|hyp|] == hyp && ref[..|ref|] == ref;
    if |hyp| == |ref| {
      DistAtMostDiffering(hyp, ref, |ref|, false);
    }
  }

  /** One-row in-place computation of the distance, with the shortcuts for an empty side. */
  method Distance(hyp: seq<int>, ref: seq<int>) returns (d: int)
    ensures d == Dist(hyp, ref, false)
    ensures d <= Longer(|hyp|, |ref|) && |hyp| <= |ref| + d && |ref| <= |hyp| + d
    ensures d == 0 <==> hyp == ref
    ensures |hyp| == |ref| ==> d <= Differing(hyp, ref, |ref|)
  {
    DistanceFacts(hyp, ref);
    DistToEmpty(hyp, |hyp|, ref);
    if |hyp| == 0 { return |ref|; }
    if |ref| == 0 { return |hyp|; }
    var nodeScores := new int[|ref| + 1](j => j);
    for iHyp := 0 to |hyp|
      invariant nodeScores[..] == Row(hyp, iHyp, ref)
    {
      RowsFollow(hyp, iHyp, ref);
      UpdateRow(nodeScores, iHyp, hyp[iHyp], ref, Row(hyp, iHyp + 1, ref));
    }
    d := nodeScores[|ref|];
  }
}
