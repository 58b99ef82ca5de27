/** The entries of a lattice file: which are refused, and which arc each becomes. */
module LatticeEntries {
  import opened LatticeGraph

  /** One line of a lattice file; word is -1 when the vocabulary does not hold it. */
  datatype Entry =
    | Transition(start: nat, end: nat, word: int, weight: real)
    | Final(node: nat, finalWeight: real)
    | Potential

  datatype LoadError = NotTopological | OutOfVocabulary

  datatype LoadResult = Loaded | Failed(error: LoadError)

  /** Placeholder end of the arcs into the final node while a file is read. */
  const NO_NODE: nat := 0xFFFF_FFFF

  /** The arcs of the entries read without error, in file order. */
  function ArcsOfEntries(entries: seq<Entry>): seq<Arc>
  {
    if entries == [] then []
    else
      var before := ArcsOfEntries(entries[..|entries| - 1]);
      match entries[|entries| - 1]
      case Transition(s, e, w, x) => before + [Arc(s, e, w, x)]
      case Final(n, x) => before + [Arc(n, NO_NODE, 0, x)]
      case Potential => before
  }

  /** How many of the entries are transitions or final states. */
  function ArcCount(entries: seq<Entry>): nat
  {
    if entries == [] then 0
    else ArcCount(entries[..|entries| - 1]) + (if entries[|entries| - 1].Potential? then 0 else 1)
  }

  /** Entry n becomes the arc numbered by the transitions and final states before it: a
      transition keeps its nodes, word and weight, a final state leads to no node yet, by word 0. */
  lemma {:induction false} EntryBecomes(entries: seq<Entry>, n: nat)
    requires n < |entries|
    ensures |ArcsOfEntries(entries)| == ArcCount(entries)
    ensures var k := ArcCount(entries[..n]);
            match entries[n]
            case Transition(s, e, w, x) =>
              k < |ArcsOfEntries(entries)| && ArcsOfEntries(entries)[k] == Arc(s, e, w, x)
            case Final(s, x) =>
              k < |ArcsOfEntries(entries)| && ArcsOfEntries(entries)[k] == Arc(s, 0xFFFF_FFFF, 0, x)
            case Potential => true
  {
    var init := entries[..|entries| - 1];
    if n < |init| {
      EntryBecomes(init, n);
      assert init[..n] == entries[..n];
    } else {
      CountsArcs(init);
    }
  }

  lemma {:induction false} CountsArcs(entries: seq<Entry>)
    ensures |ArcsOfEntries(entries)| == ArcCount(entries)
  {
    if entries != [] {
      CountsArcs(entries[..|entries| - 1]);
    }
  }

  /** The first entry that is refused, if any, decides the error. */
  function EntryError(e: Entry): LoadResult
  {
    match e
    case Transition(s, t, w, _) =>
      if s >= t then Failed(NotTopological) else if w == -1 then Failed(OutOfVocabulary) else Loaded
    case _ => Loaded
  }

  function FirstError(entries: seq<Entry>): LoadResult
  {
    if entries == [] then Loaded
    else if EntryError(entries[0]) != Loaded then EntryError(entries[0])
    else FirstError(entries[1..])
  }

  /** A transition goes forward by a known word; other entries are always fine. */
  predicate Fine(e: Entry)
  {
    match e
    case Transition(s, t, w, _) => s < t && w != -1
    case _ => true
  }

  predicate AllFine(entries: seq<Entry>)
  {
    forall i :: 0 <= i < |entries| ==> Fine(entries[i])
  }

  /** Entry n is the first that is not fine. */
  predicate FirstWrong(entries: seq<Entry>, n: nat)
  {
    n < |entries| && AllFine(entries[..n]) && !Fine(entries[n])
  }

  /** Entries are accepted exactly when all are fine. */
  lemma {:induction false} AcceptedExactly(entries: seq<Entry>)
    ensures FirstError(entries) == Loaded <==> AllFine(entries)
  {
    if entries != [] {
      AcceptedExactly(entries[1..]);
      assert AllFine(entries) <==> Fine(entries[0]) && AllFine(entries[1..]);
    }
  }

  /** The first entry that is not fine is refused, for its direction before its word. */
  lemma {:induction false} FirstWrongDecides(entries: seq<Entry>, n: nat)
    requires FirstWrong(entries, n)
    ensures entries[n].Transition?
    ensures FirstError(entries) == Failed(if entries[n].start < entries[n].end then OutOfVocabulary else NotTopological)
  {
    if n > 0 {
      assert entries[..n][0] == entries[0];
      assert entries[1..][..n - 1] == entries[..n][1..];
      FirstWrongDecides(entries[1..], n - 1);
    }
  }
}
