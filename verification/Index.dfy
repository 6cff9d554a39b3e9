/** instructions.c: the two hash tables of the judgement store, derivations to judgements
    and symbols to entries. Ids are only ever truncated and issued again, so a stale
    slot is a tombstone, and a lookup compares the whole key. */
module Index {
  import opened Probing

  datatype Key<K> = NoKey | Key(key: K)

  ghost predicate Found<K>(hash: K -> nat, keys: seq<Key<K>>, t: seq<nat>, i: nat)
    requires i < |keys|
  {
    keys[i].Key? ==> |t| > 0 && Reaches(t, hash(keys[i].key) % |t|, i)
  }

  ghost predicate AllFound<K>(hash: K -> nat, keys: seq<Key<K>>, t: seq<nat>) {
    forall i :: 0 < i < |keys| ==> Found(hash, keys, t, i)
  }

  class Table<K(==)> {
    const hash: K -> nat
    const minimum: nat
    var slots: array<nat>
    var used: nat

    ghost predicate Valid(keys: seq<Key<K>>) reads this, slots {
      minimum > 1 && used == Occupied(slots[..]) && 2 * used <= slots.Length && AllFound(hash, keys, slots[..])
    }

    constructor (hash: K -> nat, minimum: nat)
      requires minimum > 1
      ensures Valid([NoKey]) && fresh(slots) && this.hash == hash
    {
      this.hash, this.minimum, used := hash, minimum, 0;
      slots := new nat[0];
    }

    /** Truncation leaves every remaining id where it was. */
    lemma Truncated(keys: seq<Key<K>>, n: nat)
      requires Valid(keys) && n <= |keys|
      ensures Valid(keys[..n])
    {
      forall i | 0 < i < n ensures Found(hash, keys[..n], slots[..], i) {
        assert Found(hash, keys, slots[..], i);
      }
    }

    /** The live id with a key, or 0. The probe ends: half the slots are empty. */
    method Find(keys: seq<Key<K>>, key: K) returns (id: nat)
      requires Valid(keys)
      ensures id != 0 ==> id < |keys| && keys[id] == Key(key)
      ensures id == 0 ==> forall i :: 0 < i < |keys| ==> keys[i] != Key(key)
    {
      if slots.Length == 0 {
        forall i | 0 < i < |keys| ensures keys[i] != Key(key) { assert Found(hash, keys, slots[..], i); }
        return 0;
      }
      var slot := hash(key) % slots.Length;
      ghost var home, size, t := slot, slots.Length, slots[..];
      ghost var z := SomeEmpty(t);
      ghost var last := SlotReachable(home, z, size);
      ghost var k := 0;
      while slots[slot] != 0
        invariant k <= last && slot == SlotAt(home, k, size) && Filled(t, home, k)
        invariant forall j :: 0 <= j < k && t[SlotAt(home, j, size)] < |keys| ==>
                    keys[t[SlotAt(home, j, size)]] != Key(key)
        decreases last - k
      {
        assert k != last;
        if slots[slot] < |keys| && keys[slots[slot]] == Key(key) { return slots[slot]; }
        slot := if slot + 1 == slots.Length then 0 else slot + 1;
        k := k + 1;
      }
      forall i | 0 < i < |keys| ensures keys[i] != Key(key) {
        if keys[i] == Key(key) {
          assert Found(hash, keys, t, i);
          var j := ProbedAll(t, home, k, i);
        }
      }
      return 0;
    }

    /** Puts an id in the first slot that is empty, or holds an id from `live` up, or
        the id itself. */
    method Place(keys: seq<Key<K>>, id: nat, live: nat)
      requires 0 < id < |keys| && keys[id].Key? && id <= live
      requires used == Occupied(slots[..]) < slots.Length
      requires forall i :: 0 < i < id ==> Found(hash, keys, slots[..], i)
      modifies slots, `used
      ensures forall i :: 0 < i <= id ==> Found(hash, keys, slots[..], i)
      ensures used == Occupied(slots[..]) <= old(used) + 1
    {
      var slot := hash(keys[id].key) % slots.Length;
      ghost var home, size, t := slot, slots.Length, slots[..];
      ghost var z := SomeEmpty(t);
      ghost var last := SlotReachable(home, z, size);
      ghost var k := 0;
      while slots[slot] != 0 && slots[slot] < live && slots[slot] != id
        invariant k <= last && slot == SlotAt(home, k, size) && Filled(t, home, k)
        invariant slots[..] == t && used == old(used)
        decreases last - k
      {
        assert t[slot] != 0 && k != last;
        slot := if slot + 1 == slots.Length then 0 else slot + 1;
        k := k + 1;
      }
      if slots[slot] == 0 { used := used + 1; }
      OccupiedUpdate(t, slot, id);
      PlacedReachable(t, home, k, id);
      slots[slot] := id;
      assert slots[..] == t[slot := id];
      forall i | 0 < i <= id ensures Found(hash, keys, slots[..], i) {
        if i < id && keys[i].Key? {
          assert Found(hash, keys, t, i);
          KeptReachable(t, slot, id, hash(keys[i].key) % |t|, i);
        }
      }
    }

    /** Rebuilds the table for the ids before `id`. */
    method Rebuild(keys: seq<Key<K>>, id: nat, live: nat)
      requires minimum > 1 && 0 < id < |keys| && id <= live
      modifies this`slots, this`used
      ensures fresh(slots) && used == Occupied(slots[..]) && 2 * (used + 1) <= slots.Length
      ensures forall i :: 0 < i < id ==> Found(hash, keys, slots[..], i)
    {
      var capacity := minimum;
      while capacity < 4 * live
        invariant capacity > 1
        decreases 4 * live - capacity
      {
        capacity := capacity * 2;
      }
      slots := new nat[capacity](_ => 0);
      used := 0;
      OccupiedZeros(slots[..]);
      var i := 1;
      while i < id
        invariant 0 < i <= id && slots.Length == capacity && fresh(slots)
        invariant used == Occupied(slots[..]) < i
        invariant forall g :: 0 < g < i ==> Found(hash, keys, slots[..], g)
      {
        if keys[i].Key? { Place(keys, i, live); }
        i := i + 1;
      }
    }

    /** Adds the last id. */
    method Add(keys: seq<Key<K>>, live: nat)
      requires |keys| > 1 && keys[|keys| - 1].Key? && Valid(keys[..|keys| - 1]) && |keys| - 1 <= live <= |keys|
      modifies this`slots, this`used, slots
      ensures Valid(keys) && (slots == old(slots) || fresh(slots))
    {
      var id := |keys| - 1;
      forall i | 0 < i < id ensures Found(hash, keys, slots[..], i) {
        assert Found(hash, keys[..id], slots[..], i);
      }
      if (used + 1) * 2 > slots.Length { Rebuild(keys, id, live); }
      Place(keys, id, live);
    }

    /** A new id without a key. */
    lemma Skipped(keys: seq<Key<K>>)
      requires Valid(keys)
      ensures Valid(keys + [NoKey])
    {
      forall i | 0 < i < |keys| + 1 ensures Found(hash, keys + [NoKey], slots[..], i) {
        if i < |keys| { assert Found(hash, keys, slots[..], i); }
      }
    }
  }
}
