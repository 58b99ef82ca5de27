/** What a lookup answers when the keys have been renamed under an index built for the old ones. */
module StaleIndex {
  import opened Distinctness
  import opened Probing
  import opened HashIndex

  /** All the probe loops need of a table: whether it belongs to the keys does not matter. */
  ghost predicate TableShape(slots: Slots, n: nat)
  {
    IsPowerOf2(|slots|) && n < |slots| && SlotsWithin(slots, n) && InjectiveSlots(slots)
  }

  /** Whether probing stops at the k-th slot. */
  ghost predicate Stop<K>(hash: K -> nat, keys: seq<K>, slots: Slots, key: K, k: nat)
    requires |slots| > 0
  {
    var at := slots[Slot(hash(key), k, |slots|)];
    at == -1 || (0 <= at < |keys| && keys[at] == key)
  }

  lemma FirstStop<K>(hash: K -> nat, keys: seq<K>, slots: Slots, key: K, from: nat, last: nat) returns (k: nat)
    requires |slots| > 0 && from <= last && Stop(hash, keys, slots, key, last)
    requires forall j: nat :: j < from ==> !Stop(hash, keys, slots, key, j)
    ensures StopsAt(hash, keys, slots, key, k)
    decreases last - from
  {
    if Stop(hash, keys, slots, key, from) {
      forall j: nat | j < from
        ensures slots[Slot(hash(key), j, |slots|)] != -1 && Differs(keys, slots[Slot(hash(key), j, |slots|)], key)
      {
        assert !Stop(hash, keys, slots, key, j);
      }
      k := from;
    } else {
      k := FirstStop(hash, keys, slots, key, from + 1, last);
    }
  }

  lemma StopExists<K>(hash: K -> nat, keys: seq<K>, slots: Slots, key: K) returns (k: nat)
    requires TableShape(slots, |keys|)
    ensures StopsAt(hash, keys, slots, key, k)
  {
    hide Slot;
    var last := ProbeStops(slots, |keys|, hash(key));
    k := FirstStop(hash, keys, slots, key, 0, last);
  }

  /** What the probe loop finds for key in this table, whatever keys it was built for. */
  ghost function Answer<K>(hash: K -> nat, keys: seq<K>, slots: Slots, key: K): int
    requires TableShape(slots, |keys|)
  {
    var k := StopOf(hash, keys, slots, key);
    slots[Slot(hash(key), k, |slots|)]
  }

  ghost function StopOf<K>(hash: K -> nat, keys: seq<K>, slots: Slots, key: K): (k: nat)
    requires TableShape(slots, |keys|)
    ensures StopsAt(hash, keys, slots, key, k)
  {
    assert exists k: nat :: StopsAt(hash, keys, slots, key, k) by {
      var k := StopExists(hash, keys, slots, key);
    }
    var k: nat :| StopsAt(hash, keys, slots, key, k);
    k
  }

  lemma NoStopBefore<K>(hash: K -> nat, keys: seq<K>, slots: Slots, key: K, k: nat, l: nat)
    requires |slots| > 0 && StopsAt(hash, keys, slots, key, k) && Stop(hash, keys, slots, key, l)
    ensures k <= l
  {
    hide Slot;
  }

  /** Probing stops at one slot only. */
  lemma AnswerIs<K>(hash: K -> nat, keys: seq<K>, slots: Slots, key: K, k: nat)
    requires TableShape(slots, |keys|) && StopsAt(hash, keys, slots, key, k)
    ensures Answer(hash, keys, slots, key) == slots[Slot(hash(key), k, |slots|)]
  {
    hide Slot;
    var l := StopOf(hash, keys, slots, key);
    NoStopBefore(hash, keys, slots, key, k, l);
    NoStopBefore(hash, keys, slots, key, l, k);
  }

  /** Over a valid index the answer is right. */
  lemma AnswerRight<K>(hash: K -> nat, keys: seq<K>, slots: Slots, key: K)
    requires Indexed(hash, keys, slots)
    ensures Answer(hash, keys, slots, key) == -1 <==> key !in keys
    ensures key in keys ==> var i := Answer(hash, keys, slots, key); 0 <= i < |keys| && keys[i] == key
  {
    hide Slot;
    var k := StopOf(hash, keys, slots, key);
    StopDecides(hash, keys, slots, key, k);
  }

  /** A key that keeps its number is still found. */
  lemma UnmovedFound<K>(hash: K -> nat, keys: seq<K>, slots: Slots, moved: seq<K>, j: nat)
    requires Indexed(hash, keys, slots) && |moved| == |keys| && Distinct(moved)
    requires j < |keys| && moved[j] == keys[j]
    ensures Answer(hash, moved, slots, moved[j]) == j
  {
    hide Slot;
    assert Stored(hash, keys, slots, j);
    var l: nat :| Holds(hash, keys, slots, j, l);
    var k := StopOf(hash, moved, slots, moved[j]);
    NoStopBefore(hash, moved, slots, moved[j], k, l);
  }

  // ----- a hash function under which a moved key is lost -----

  /** The number of a key, |keys| when it is none. */
  ghost function Place<K>(keys: seq<K>, x: K): (i: nat)
    ensures x in keys ==> i < |keys| && keys[i] == x
    ensures x !in keys ==> i == |keys|
  {
    if x in keys then
      var i :| 0 <= i < |keys| && keys[i] == x;
      i
    else |keys|
  }

  ghost function Spread<K>(keys: seq<K>): K -> nat
  {
    x => 2 * Place(keys, x)
  }

  /** Key i in slot 2 i, all other slots empty. */
  function SpreadSlots(n: nat): (slots: Slots)
    ensures |slots| == NextPowerOf2(2 * n + 1)
    ensures forall s :: 0 <= s < |slots| ==> slots[s] == if s % 2 == 0 && s / 2 < n then s / 2 else -1
  {
    seq(NextPowerOf2(2 * n + 1), s => if s % 2 == 0 && s / 2 < n then s / 2 else -1)
  }

  lemma FirstSlots(h: nat, p: nat)
    requires h + 1 < p
    ensures Slot(h, 0, p) == h && Slot(h, 1, p) == h + 1
  {
  }

  lemma SpreadIndexed<K>(keys: seq<K>)
    requires Distinct(keys)
    ensures Indexed(Spread(keys), keys, SpreadSlots(|keys|))
  {
    hide Slot, IsPowerOf2;
    var hash, slots := Spread(keys), SpreadSlots(|keys|);
    forall i | 0 <= i < |keys|
      ensures Stored(hash, keys, slots, i)
    {
      assert Place(keys, keys[i]) == i;
      FirstSlots(2 * i, |slots|);
      assert slots[2 * i] == i;
      assert Holds(hash, keys, slots, i, 0);
    }
  }

  lemma MovedLost<K>(keys: seq<K>, moved: seq<K>, j: nat)
    requires Distinct(keys) && Distinct(moved) && |moved| == |keys| && j < |keys| && moved[j] != keys[j]
    ensures TableShape(SpreadSlots(|keys|), |keys|)
    ensures Answer(Spread(keys), moved, SpreadSlots(|keys|), moved[j]) == -1
  {
    hide Slot, IsPowerOf2;
    var hash, slots, key := Spread(keys), SpreadSlots(|keys|), moved[j];
    SpreadIndexed(keys);
    var i := Place(keys, key);
    FirstSlots(2 * i, |slots|);
    if i == |keys| {
      assert slots[2 * i] == -1;
      AnswerIs(hash, moved, slots, key, 0);
    } else {
      assert slots[2 * i] == i && slots[2 * i + 1] == -1 && moved[i] != key;
      assert StopsAt(hash, moved, slots, key, 1);
      AnswerIs(hash, moved, slots, key, 1);
    }
  }

  /** An index outlives the renaming of its keys, whatever the hash function and the table,
      exactly when the renaming changes nothing. */
  lemma IndexOutlives<K(!new)>(keys: seq<K>, moved: seq<K>)
    requires Distinct(keys) && Distinct(moved) && |moved| == |keys|
    ensures (forall hash: K -> nat, slots :: Indexed(hash, keys, slots) ==> Indexed(hash, moved, slots))
       <==> moved == keys
  {
    if moved != keys {
      var j :| 0 <= j < |keys| && moved[j] != keys[j];
      SpreadIndexed(keys);
      MovedLost(keys, moved, j);
      if Indexed(Spread(keys), moved, SpreadSlots(|keys|)) {
        AnswerRight(Spread(keys), moved, SpreadSlots(|keys|), moved[j]);
      }
      assert Indexed(Spread(keys), keys, SpreadSlots(|keys|)) && !Indexed(Spread(keys), moved, SpreadSlots(|keys|));
    }
  }

  /** For every hash function there is a table of the given size. */
  lemma {:induction false} TableExists<K>(hash: K -> nat, keys: seq<K>, p: nat) returns (slots: Slots)
    requires Distinct(keys) && IsPowerOf2(p) && |keys| < p
    ensures |slots| == p && Indexed(hash, keys, slots)
  {
    hide Slot, IsPowerOf2;
    if keys == [] {
      NothingIndexed(hash, p);
      slots := seq(p, _ => -1);
    } else {
      var init, key := keys[..|keys| - 1], keys[|keys| - 1];
      slots := TableExists(hash, init, p);
      var k := StopExists(hash, init, slots, key);
      InsertKeeps(hash, init, slots, key, k);
      assert init + [key] == keys;
      slots := slots[Slot(hash(key), k, p) := |init|];
    }
  }
}
