/** Stand-in for the library sorts: a sorted permutation under any total preorder. */
module Sorting {
  import opened Distinctness

  ghost predicate TotalPreorder<T(!new)>(le: (T, T) -> bool)
  {
    && (forall a, b :: le(a, b) || le(b, a))
    && (forall a, b, c :: le(a, b) && le(b, c) ==> le(a, c))
  }

  ghost predicate SortedBy<T(!new)>(s: seq<T>, le: (T, T) -> bool)
  {
    forall i, j :: 0 <= i < j < |s| ==> le(s[i], s[j])
  }

  function Insert<T(!new)>(x: T, s: seq<T>, le: (T, T) -> bool): (r: seq<T>)
    ensures multiset(r) == multiset(s) + multiset{x}
  {
    if s == [] then [x]
    else if le(x, s[0]) then [x] + s
    else
      assert s == [s[0]] + s[1..];
      [s[0]] + Insert(x, s[1..], le)
  }

  lemma {:induction false} InsertSorted<T(!new)>(x: T, s: seq<T>, le: (T, T) -> bool)
    requires TotalPreorder(le) && SortedBy(s, le)
    ensures SortedBy(Insert(x, s, le), le)
  {
    if s != [] && !le(x, s[0]) {
      var rest := Insert(x, s[1..], le);
      InsertSorted(x, s[1..], le);
      forall k | 0 <= k < |rest|
        ensures le(s[0], rest[k])
      {
        assert rest[k] in multiset(rest);
        assert rest[k] in s[1..] || rest[k] == x;
      }
    }
  }

  /** The elements of s in order of le. */
  function Sort<T(!new)>(s: seq<T>, le: (T, T) -> bool): (r: seq<T>)
    ensures multiset(r) == multiset(s)
    ensures |r| == |s|
  {
    if s == [] then []
    else
      assert s == [s[0]] + s[1..];
      assert multiset(s) == multiset(s[1..]) + multiset{s[0]};
      var r := Insert(s[0], Sort(s[1..], le), le);
      assert |multiset(r)| == |r| && |multiset(s)| == |s|;
      r
  }

  lemma {:induction false} SortIsSorted<T(!new)>(s: seq<T>, le: (T, T) -> bool)
    requires TotalPreorder(le)
    ensures SortedBy(Sort(s, le), le)
  {
    if s != [] {
      SortIsSorted(s[1..], le);
      InsertSorted(s[0], Sort(s[1..], le), le);
    }
  }

  // ----- sorting positions instead of values -----

  /** idx lists the numbers below n in some order. */
  ghost predicate Permutation(idx: seq<nat>, n: nat)
  {
    && |idx| == n
    && Distinct(idx)
    && (forall i :: 0 <= i < n ==> idx[i] < n)
    && (forall j :: 0 <= j < n ==> j in idx)
  }

  function Positions(n: nat): (s: seq<nat>)
    ensures |s| == n && forall i :: 0 <= i < n ==> s[i] == i
  {
    seq(n, i requires 0 <= i < n => i)
  }

  /** Distinct numbers below k that miss one are fewer than k. */
  lemma MissingIsSmaller(idx: seq<nat>, k: nat, j: nat)
    requires Distinct(idx) && (forall i :: 0 <= i < |idx| ==> idx[i] < k) && j < k && j !in idx
    ensures |idx| < k
  {
    SnocDistinct(idx, j);
    var all := Positions(k);
    forall v: nat | v < k
      ensures v in all
    {
      assert all[v] == v;
    }
    forall v | v in Elements(idx + [j])
      ensures v in Elements(all)
    {
      assert v < k;
    }
    ElementsSize(idx + [j]);
    ElementsSize(all);
    SubsetSize(Elements(idx + [j]), Elements(all));
  }

  /** The positions 0 .. n in the order le puts them. */
  function SortedPositions(n: nat, le: (nat, nat) -> bool): seq<nat>
  {
    Sort(Positions(n), le)
  }

  lemma SortedPositionsPermute(n: nat, le: (nat, nat) -> bool)
    requires TotalPreorder(le)
    ensures Permutation(SortedPositions(n, le), n)
    ensures SortedBy(SortedPositions(n, le), le)
  {
    var idx, all := SortedPositions(n, le), Positions(n);
    SortIsSorted(all, le);
    PermutedDistinct(all, idx);
    forall i | 0 <= i < n
      ensures idx[i] < n && i in idx
    {
      assert idx[i] in multiset(idx) && all[i] in multiset(all);
      assert idx[i] in all && all[i] in idx;
    }
  }

  /** Entry i of r is entry order[i] of s. */
  function Arranged<T>(s: seq<T>, order: seq<nat>): (r: seq<T>)
    requires forall i :: 0 <= i < |order| ==> order[i] < |s|
    ensures |r| == |order| && forall i :: 0 <= i < |order| ==> r[i] == s[order[i]]
  {
    seq(|order|, i requires 0 <= i < |order| => s[order[i]])
  }

  /** to takes every position to where order puts it. */
  ghost predicate Inverse(order: seq<nat>, to: seq<nat>)
  {
    |order| == |to| && forall i :: 0 <= i < |order| ==> order[i] < |to| && to[order[i]] == i
  }

  lemma InversePermutes(order: seq<nat>, to: seq<nat>)
    requires Permutation(order, |order|) && Inverse(order, to)
    ensures Permutation(to, |to|)
    ensures forall i :: 0 <= i < |to| ==> to[i] < |order| && order[to[i]] == i
  {
    forall i | 0 <= i < |to|
      ensures to[i] < |order| && order[to[i]] == i && i in to
    {
      assert i in order;
      assert to[order[i]] == i;
    }
    forall i, j | 0 <= i < j < |to|
      ensures to[i] != to[j]
    {
      assert order[to[i]] == i && order[to[j]] == j;
    }
  }

  method Invert(order: seq<nat>) returns (to: seq<nat>)
    requires Permutation(order, |order|)
    ensures Inverse(order, to)
  {
    to := seq(|order|, _ => 0);
    for i := 0 to |order|
      invariant |to| == |order| && forall k :: 0 <= k < i ==> to[order[k]] == k
    {
      to := to[order[i] := i];
    }
  }
}
