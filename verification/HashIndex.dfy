/** Open addressing: an index table over a sequence of distinct keys, for any hash function. */
module HashIndex {
  import opened Distinctness
  import opened Sorting
  import opened Probing

  /** Slot contents: -1 is empty, otherwise the position of a key. */
  type Slots = seq<int>

  /** The first k probes for a key with this hash meet no empty slot. */
  ghost predicate Occupied(slots: Slots, h: nat, k: nat)
    requires |slots| > 0
  {
    forall j: nat :: j < k ==> slots[Slot(h, j, |slots|)] != -1
  }

  /** The k-th probe for key i finds i, and no earlier probe meets an empty slot. */
  ghost predicate Holds<K>(hash: K -> nat, keys: seq<K>, slots: Slots, i: nat, k: nat)
    requires |slots| > 0 && i < |keys|
  {
    slots[Slot(hash(keys[i]), k, |slots|)] == i && Occupied(slots, hash(keys[i]), k)
  }

  ghost predicate Stored<K>(hash: K -> nat, keys: seq<K>, slots: Slots, i: nat)
    requires |slots| > 0 && i < |keys|
  {
    exists k: nat :: Holds(hash, keys, slots, i, k)
  }

  ghost predicate InjectiveSlots(slots: Slots)
  {
    forall s, t :: 0 <= s < t < |slots| && slots[s] == slots[t] ==> slots[s] == -1
  }

  ghost predicate SlotsWithin(slots: Slots, n: nat)
  {
    forall s :: 0 <= s < |slots| ==> -1 <= slots[s] < n
  }

  /** Every key can be found, and at least one slot is empty. */
  ghost predicate Indexed<K>(hash: K -> nat, keys: seq<K>, slots: Slots)
  {
    && IsPowerOf2(|slots|) && |keys| < |slots|
    && SlotsWithin(slots, |keys|) && InjectiveSlots(slots)
    && Distinct(keys)
    && forall i :: 0 <= i < |keys| ==> Stored(hash, keys, slots, i)
  }

  lemma IndexedShape<K>(hash: K -> nat, keys: seq<K>, slots: Slots)
    requires Indexed(hash, keys, slots)
    ensures IsPowerOf2(|slots|) && |keys| < |slots| && Distinct(keys)
  {
  }

  /** A table with more slots than keys keeps an empty slot. */
  lemma EmptySlot(slots: Slots, n: nat) returns (e: nat)
    requires n < |slots| && SlotsWithin(slots, n) && InjectiveSlots(slots)
    ensures e < |slots| && slots[e] == -1
  {
    if forall s :: 0 <= s < |slots| ==> slots[s] != -1 {
      var all: seq<int> := Positions(n);
      forall v: int | 0 <= v < n
        ensures v in all
      {
        assert all[v] == v;
      }
      var s := Pigeonhole(slots, all);
    }
    e :| 0 <= e < |slots| && slots[e] == -1;
  }

  /** Some probe meets an empty slot: the probe loops stop. */
  lemma ProbeStops(slots: Slots, n: nat, h: nat) returns (k: nat)
    requires IsPowerOf2(|slots|) && n < |slots| && SlotsWithin(slots, n) && InjectiveSlots(slots)
    ensures slots[Slot(h, k, |slots|)] == -1
  {
    var e := EmptySlot(slots, n);
    k := EverySlotReached(h, |slots|, e);
  }

  /** Probing stops at the k-th slot: at the key, or at the first empty slot. */
  ghost predicate StopsAt<K>(hash: K -> nat, keys: seq<K>, slots: Slots, key: K, k: nat)
    requires |slots| > 0
  {
    var at := slots[Slot(hash(key), k, |slots|)];
    && Occupied(slots, hash(key), k)
    && (at == -1 || (0 <= at < |keys| && keys[at] == key))
    && (forall j: nat :: j < k ==> Differs(keys, slots[Slot(hash(key), j, |slots|)], key))
  }

  predicate Differs<K(==)>(keys: seq<K>, at: int, key: K)
  {
    0 <= at < |keys| ==> keys[at] != key
  }

  lemma KeyNotBefore<K>(hash: K -> nat, keys: seq<K>, slots: Slots, key: K, k: nat, i: nat, l: nat)
    requires |slots| > 0 && StopsAt(hash, keys, slots, key, k)
    requires i < |keys| && keys[i] == key && slots[Slot(hash(key), l, |slots|)] == i
    ensures l >= k
  {
  }

  /** Where probing stops decides membership. */
  lemma StopDecides<K>(hash: K -> nat, keys: seq<K>, slots: Slots, key: K, k: nat)
    requires Indexed(hash, keys, slots) && StopsAt(hash, keys, slots, key, k)
    ensures slots[Slot(hash(key), k, |slots|)] == -1 <==> key !in keys
  {
    if key in keys {
      var i :| 0 <= i < |keys| && keys[i] == key;
      assert Stored(hash, keys, slots, i);
      var l: nat :| Holds(hash, keys, slots, i, l);
      KeyNotBefore(hash, keys, slots, key, k, i, l);
    }
  }

  /** A step of the probe loop. */
  lemma StopStep(slots: Slots, h: nat, k: nat)
    requires |slots| > 0 && Occupied(slots, h, k) && slots[Slot(h, k, |slots|)] != -1
    ensures Occupied(slots, h, k + 1)
    ensures (Slot(h, k, |slots|) + (k + 1)) % |slots| == Slot(h, k + 1, |slots|)
  {
    NextSlot(h, k, |slots|);
  }

  /** Position of the slot that holds key, or of the empty slot to insert it in. */
  method FindSlot<K(==)>(hash: K -> nat, keys: seq<K>, slots: Slots, key: K) returns (pos: nat, ghost k: nat)
    requires IsPowerOf2(|slots|) && |keys| < |slots| && SlotsWithin(slots, |keys|) && InjectiveSlots(slots)
    ensures pos == Slot(hash(key), k, |slots|) && StopsAt(hash, keys, slots, key, k)
  {
    hide Slot, IsPowerOf2, InjectiveSlots;
    ghost var last := ProbeStops(slots, |keys|, hash(key));
    var skip := 0;
    pos, k := hash(key) % |slots|, 0;
    FirstSlot(hash(key), |slots|);
    while slots[pos] != -1 && keys[slots[pos]] != key
      invariant pos == Slot(hash(key), k, |slots|) && k == skip <= last
      invariant Occupied(slots, hash(key), k)
      invariant forall j: nat :: j < k ==> Differs(keys, slots[Slot(hash(key), j, |slots|)], key)
      decreases last - k
    {
      StopStep(slots, hash(key), k);
      skip := skip + 1;
      pos := (pos + skip) % |slots|;
      k := k + 1;
    }
  }

  lemma FirstSlot(h: nat, p: nat)
    requires p > 0
    ensures Slot(h, 0, p) == h % p
  {
  }

  /** Storing a new key in the slot found for it keeps every key findable. */
  lemma InsertKeeps<K>(hash: K -> nat, keys: seq<K>, slots: Slots, key: K, k: nat)
    requires Indexed(hash, keys, slots) && StopsAt(hash, keys, slots, key, k) && key !in keys
    requires |keys| + 1 < |slots|
    ensures Indexed(hash, keys + [key], slots[Slot(hash(key), k, |slots|) := |keys|])
  {
    hide Slot, IsPowerOf2;
    StopDecides(hash, keys, slots, key, k);
    var pos := Slot(hash(key), k, |slots|);
    var keys1, slots1 := keys + [key], slots[pos := |keys|];
    SnocDistinct(keys, key);
    forall i | 0 <= i < |keys1|
      ensures Stored(hash, keys1, slots1, i)
    {
      if i < |keys| {
        assert Stored(hash, keys, slots, i);
        var l: nat :| Holds(hash, keys, slots, i, l);
        assert Holds(hash, keys1, slots1, i, l);
      } else {
        assert Holds(hash, keys1, slots1, i, k);
      }
    }
  }

  lemma NothingIndexed<K>(hash: K -> nat, p: nat)
    requires IsPowerOf2(p)
    ensures Indexed(hash, [], seq(p, _ => -1))
  {
  }

  /** Rebuilds the table for p slots. */
  method Reindex<K(==)>(hash: K -> nat, keys: seq<K>, p: nat) returns (slots: Slots)
    requires IsPowerOf2(p) && |keys| < p && Distinct(keys)
    ensures |slots| == p && Indexed(hash, keys, slots)
  {
    hide Slot, IsPowerOf2;
    slots := seq(p, _ => -1);
    NothingIndexed(hash, p);
    for i := 0 to |keys|
      invariant |slots| == p && Indexed(hash, keys[..i], slots)
    {
      assert keys[i] !in keys[..i];
      ghost var last := ProbeStops(slots, i, hash(keys[i]));
      var skip := 0;
      var pos := hash(keys[i]) % p;
      FirstSlot(hash(keys[i]), p);
      while slots[pos] != -1
        invariant pos == Slot(hash(keys[i]), skip, p) && skip <= last
        invariant Occupied(slots, hash(keys[i]), skip)
        decreases last - skip
      {
        StopStep(slots, hash(keys[i]), skip);
        skip := skip + 1;
        pos := (pos + skip) % p;
      }
      assert StopsAt(hash, keys[..i], slots, keys[i], skip);
      InsertKeeps(hash, keys[..i], slots, keys[i], skip);
      assert keys[..i] + [keys[i]] == keys[..i + 1];
      slots := slots[pos := i];
    }
    assert keys[..|keys|] == keys;
  }

  // ----- renumbering the keys in place -----

  function NewNumber(at: int, to: seq<nat>): int
    requires -1 <= at < |to|
  {
    if at == -1 then -1 else to[at]
  }

  function Renumber(slots: Slots, to: seq<nat>): (r: Slots)
    requires SlotsWithin(slots, |to|)
    ensures |r| == |slots|
    ensures forall s :: 0 <= s < |slots| ==> r[s] == NewNumber(slots[s], to)
  {
    seq(|slots|, s requires 0 <= s < |slots| => NewNumber(slots[s], to))
  }

  lemma RenumberedOccupied(slots: Slots, to: seq<nat>, h: nat, k: nat)
    requires |slots| > 0 && SlotsWithin(slots, |to|) && Occupied(slots, h, k)
    ensures Occupied(Renumber(slots, to), h, k)
  {
    hide Slot;
  }

  /** Rewriting every slot to the new number of its key keeps all probe chains: moved key i
      is found under to[i]. */
  lemma RenumberKeeps<K>(hash: K -> nat, keys: seq<K>, slots: Slots, to: seq<nat>, moved: seq<K>)
    requires Indexed(hash, keys, slots) && Permutation(to, |keys|) && |moved| == |keys|
    requires forall i :: 0 <= i < |keys| ==> moved[to[i]] == keys[i]
    ensures Indexed(hash, moved, Renumber(slots, to))
  {
    hide Slot, IsPowerOf2;
    var slots1 := Renumber(slots, to);
    forall i | 0 <= i < |moved|
      ensures Stored(hash, moved, slots1, i)
    {
      assert i in to;
      var j :| 0 <= j < |to| && to[j] == i;
      assert Stored(hash, keys, slots, j);
      var k: nat :| Holds(hash, keys, slots, j, k);
      RenumberedOccupied(slots, to, hash(keys[j]), k);
      assert Holds(hash, moved, slots1, i, k);
    }
    MovedDistinct(keys, to, moved);
  }

  lemma MovedDistinct<K>(keys: seq<K>, to: seq<nat>, moved: seq<K>)
    requires Permutation(to, |keys|) && |moved| == |keys| && Distinct(keys)
    requires forall i :: 0 <= i < |keys| ==> moved[to[i]] == keys[i]
    ensures Distinct(moved)
  {
    forall a, b | 0 <= a < b < |moved|
      ensures moved[a] != moved[b]
    {
      assert a in to && b in to;
      var i :| 0 <= i < |to| && to[i] == a;
      var j :| 0 <= j < |to| && to[j] == b;
      assert keys[i] != keys[j];
    }
  }
}
