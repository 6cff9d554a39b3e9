/** term_store.c: the open-addressing table of the syntax hash graph, on values.

    A slot holds 0 or a handle. Handles below the live count are live; the others are
    tombstones, left by truncation. A tombstone's handle may be issued again later,
    so a slot may also name a live node that hashes elsewhere. */
module Probing {
  import opened Counting

  /** The slot after `k` steps from `start`, around the table. */
  function SlotAt(start: nat, k: nat, size: nat): (s: nat)
    requires start < size && k < size
    ensures s < size
  {
    if start + k < size then start + k else start + k - size
  }

  /** No slot of the first `k` from `start` is empty. */
  ghost predicate Filled(t: seq<nat>, start: nat, k: nat)
    requires start < |t| && k <= |t|
  {
    forall j :: 0 <= j < k ==> t[SlotAt(start, j, |t|)] != 0
  }

  ghost predicate ReachesIn(t: seq<nat>, start: nat, h: nat, k: nat)
    requires start < |t|
  {
    k < |t| && t[SlotAt(start, k, |t|)] == h && Filled(t, start, k)
  }

  /** Probing from `start` meets `h` before an empty slot. */
  ghost predicate Reaches(t: seq<nat>, start: nat, h: nat)
    requires start < |t|
  {
    exists k: nat :: ReachesIn(t, start, h, k)
  }

  function Occupied(t: seq<nat>): (n: nat)
    ensures n <= |t|
  {
    if t == [] then 0 else Occupied(t[..|t| - 1]) + if t[|t| - 1] == 0 then 0 else 1
  }

  lemma {:induction false} OccupiedUpdate(t: seq<nat>, s: nat, h: nat)
    requires s < |t| && h > 0
    ensures Occupied(t[s := h]) == Occupied(t) + if t[s] == 0 then 1 else 0
  {
    var last := |t| - 1;
    if s < last {
      assert t[s := h][..last] == t[..last][s := h];
      OccupiedUpdate(t[..last], s, h);
    } else {
      assert t[s := h][..last] == t[..last];
    }
  }

  lemma {:induction false} OccupiedZeros(t: seq<nat>)
    requires forall i :: 0 <= i < |t| ==> t[i] == 0
    ensures Occupied(t) == 0
  {
    if t != [] { OccupiedZeros(t[..|t| - 1]); }
  }

  lemma {:induction false} SomeEmpty(t: seq<nat>) returns (z: nat)
    requires Occupied(t) < |t|
    ensures z < |t| && t[z] == 0
  {
    var last := |t| - 1;
    if t[last] == 0 {
      z := last;
    } else {
      z := SomeEmpty(t[..last]);
    }
  }

  /** Every slot is probed from every start. */
  lemma SlotReachable(start: nat, s: nat, size: nat) returns (k: nat)
    requires start < size && s < size
    ensures k < size && SlotAt(start, k, size) == s
  {
    k := if s >= start then s - start else s + size - start;
  }

  ghost function Values(t: seq<nat>): set<nat> { set i | 0 <= i < |t| && t[i] != 0 :: t[i] }

  lemma {:induction false} ValuesCount(t: seq<nat>)
    ensures |Values(t)| <= Occupied(t)
  {
    if t != [] {
      var last := |t| - 1;
      ValuesCount(t[..last]);
      if t[last] == 0 {
        assert Values(t) == Values(t[..last]);
      } else {
        assert Values(t) == Values(t[..last]) + {t[last]};
      }
    }
  }

  ghost function Below(n: nat): (all: set<nat>)
    ensures forall i :: i in all <==> 0 < i < n
    ensures |all| == if n == 0 then 0 else n - 1
  {
    if n <= 1 then {} else Below(n - 1) + {n - 1}
  }

  /** A table that holds every handle below `count` has that many occupied slots. */
  lemma HandlesOccupy(t: seq<nat>, count: nat)
    requires count > 0
    requires forall h :: 0 < h < count ==> h in t
    ensures count - 1 <= Occupied(t)
  {
    ValuesCount(t);
    forall h | h in Below(count) ensures h in Values(t) {
      assert h in t;
      var i :| 0 <= i < |t| && t[i] == h;
    }
    SubsetSize(Below(count), Values(t));
  }

  /** Overwriting an empty slot, a tombstone or the handle itself, at the end of a
      filled run, makes the handle reachable and keeps the other live ones so. */
  lemma PlacedReachable(t: seq<nat>, start: nat, k: nat, h: nat)
    requires start < |t| && k < |t| && h > 0 && Filled(t, start, k)
    ensures Reaches(t[SlotAt(start, k, |t|) := h], start, h)
  {
    var u := t[SlotAt(start, k, |t|) := h];
    assert ReachesIn(u, start, h, k);
  }

  lemma KeptReachable(t: seq<nat>, s: nat, h: nat, start: nat, g: nat)
    requires s < |t| && start < |t| && h > 0 && t[s] != g && Reaches(t, start, g)
    ensures Reaches(t[s := h], start, g)
  {
    var k: nat :| ReachesIn(t, start, g, k);
    assert ReachesIn(t[s := h], start, g, k);
  }

  /** A probe that found an empty slot after `k` steps has passed every handle that
      is reachable from its start. */
  lemma ProbedAll(t: seq<nat>, start: nat, k: nat, h: nat) returns (j: nat)
    requires start < |t| && k < |t| && h > 0 && t[SlotAt(start, k, |t|)] == 0 && Reaches(t, start, h)
    ensures j < k && t[SlotAt(start, j, |t|)] == h
  {
    j :| ReachesIn(t, start, h, j);
  }
}
