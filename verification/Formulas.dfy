/** formula.c: formulas as clause buffers kept in normal form by absorption.

    Each operation is described by a function on clause lists that follows the
    loops step by step, with the work counter and the limits. The methods of
    `Formula` are proved equal to these functions, and the lemmas say what the
    functions compute in the lattice. */
module Formulas {
  import opened Counting
  import opened Lattice

  const DIMENSIONS := 64
  const MAX_CLAUSES := 4096
  const MAX_LATTICE_WORK := 4000000

  type Dim = d: nat | d < DIMENSIONS
  type DimClause = Clause<Dim>

  datatype Status = Ok | BadInput | LimitExceeded

  /** A clause list and the work done so far, or a limit. */
  datatype Outcome = Done(list: seq<DimClause>, work: nat) | Limit

  ghost function SetOf(list: seq<DimClause>): set<DimClause> { set c | c in list }

  /** No clause absorbs another, so no clause is repeated, and a face's clauses
      are consistent. */
  ghost predicate ListNormal(sort: Sort, list: seq<DimClause>) {
    && (forall i, j :: 0 <= i < |list| && 0 <= j < |list| && i != j ==> !Below(list[i], list[j]))
    && (forall i :: 0 <= i < |list| ==> Consistent(sort, list[i]))
  }

  lemma ListNormalIsNormal(sort: Sort, list: seq<DimClause>)
    requires ListNormal(sort, list)
    ensures Normal(sort, SetOf(list))
  {
    forall a, b | a in SetOf(list) && b in SetOf(list) && Below(a, b) ensures a == b {
      var i :| 0 <= i < |list| && list[i] == a;
      var j :| 0 <= j < |list| && list[j] == b;
    }
  }

  // ---- Insertion ---------------------------------------------------------------

  /** The number of leading clauses the absorption scan compares without a hit. */
  function Misses(list: seq<DimClause>, c: DimClause): (n: nat)
    ensures n <= |list|
    ensures forall i :: 0 <= i < n ==> !Below(list[i], c)
    ensures n < |list| ==> Below(list[n], c)
  {
    if list == [] || Below(list[0], c) then 0 else 1 + Misses(list[1..], c)
  }

  lemma {:induction false} MissesBeyond(list: seq<DimClause>, c: DimClause, i: nat)
    requires i < |list| && i <= Misses(list, c) && !Below(list[i], c)
    ensures i + 1 <= Misses(list, c)
  {
  }

  /** The clauses that `c` does not absorb, in order. */
  function Unabsorbed(list: seq<DimClause>, c: DimClause): (kept: seq<DimClause>)
    ensures |kept| <= |list|
  {
    if list == [] then []
    else Unabsorbed(list[..|list| - 1], c) + (if Below(c, list[|list| - 1]) then [] else [list[|list| - 1]])
  }

  function InsertRun(sort: Sort, list: seq<DimClause>, c: DimClause, work: nat): Outcome {
    var misses := Misses(list, c);
    if |list| > MAX_CLAUSES then Limit
    else if !Consistent(sort, c) then Done(list, work)
    else if misses < |list| then
      if work + misses + 1 > MAX_LATTICE_WORK then Limit else Done(list, work + misses + 1)
    else if list != [] && work + 2 * |list| > MAX_LATTICE_WORK then Limit
    else if |Unabsorbed(list, c)| == MAX_CLAUSES then Limit
    else Done(Unabsorbed(list, c) + [c], work + 2 * |list|)
  }

  function InsertAll(sort: Sort, list: seq<DimClause>, cs: seq<DimClause>, work: nat): Outcome
    decreases |cs|
  {
    if cs == [] then Done(list, work)
    else match InsertRun(sort, list, cs[0], work)
      case Limit => Limit
      case Done(next, spent) => InsertAll(sort, next, cs[1..], spent)
  }

  lemma {:induction false} UnabsorbedMembers(list: seq<DimClause>, c: DimClause)
    ensures forall x :: x in Unabsorbed(list, c) <==> x in list && !Below(c, x)
  {
    if list != [] {
      UnabsorbedMembers(list[..|list| - 1], c);
      assert list == list[..|list| - 1] + [list[|list| - 1]];
    }
  }

  lemma {:induction false} UnabsorbedNormal(sort: Sort, list: seq<DimClause>, c: DimClause)
    requires ListNormal(sort, list)
    ensures ListNormal(sort, Unabsorbed(list, c))
  {
    if list != [] {
      var last := |list| - 1;
      UnabsorbedNormal(sort, list[..last], c);
      UnabsorbedMembers(list[..last], c);
      var kept := Unabsorbed(list[..last], c);
      forall i | 0 <= i < |kept| ensures !Below(kept[i], list[last]) && !Below(list[last], kept[i]) {
        assert kept[i] in list[..last];
        var j :| 0 <= j < last && list[j] == kept[i];
      }
    }
  }

  lemma AbsorbedInsert(sort: Sort, s: set<DimClause>, b: DimClause, c: DimClause)
    requires Normal(sort, s) && b in s && Below(b, c)
    ensures Reduce(sort, s + {c}) == s
  {
    forall x | x in s ensures x in Reduce(sort, s + {c}) {
      if Below(c, x) {
        BelowTransitive(b, c, x);
        BelowAntisymmetric(b, c);
      }
    }
  }

  lemma InconsistentInsert(sort: Sort, s: set<DimClause>, c: DimClause)
    requires Normal(sort, s) && !Consistent(sort, c)
    ensures Reduce(sort, s + {c}) == s
  {
    forall x | x in s ensures !Below(c, x) {
      assert Below(c, x) ==> c.positive * c.negative <= x.positive * x.negative;
    }
  }

  lemma FreshInsert(sort: Sort, s: set<DimClause>, c: DimClause)
    requires Normal(sort, s) && Consistent(sort, c) && forall b :: b in s ==> !Below(b, c)
    ensures Reduce(sort, s + {c}) == (set x | x in s && !Below(c, x)) + {c}
  {
  }

  /** Insertion is absorption: the result is again normal, and its clauses are the
      unabsorbed ones among the old clauses and the new one. */
  lemma InsertMeaning(sort: Sort, list: seq<DimClause>, c: DimClause, work: nat)
    requires ListNormal(sort, list)
    ensures match InsertRun(sort, list, c, work)
            case Limit => true
            case Done(next, _) => ListNormal(sort, next) && SetOf(next) == Reduce(sort, SetOf(list) + {c})
  {
    ListNormalIsNormal(sort, list);
    var misses := Misses(list, c);
    if !Consistent(sort, c) {
      InconsistentInsert(sort, SetOf(list), c);
    } else if misses < |list| {
      AbsorbedInsert(sort, SetOf(list), list[misses], c);
    } else {
      FreshMembers(sort, list, c);
      FreshInsert(sort, SetOf(list), c);
    }
  }

  lemma FreshMembers(sort: Sort, list: seq<DimClause>, c: DimClause)
    requires ListNormal(sort, list) && Consistent(sort, c) && Misses(list, c) == |list|
    ensures ListNormal(sort, Unabsorbed(list, c) + [c])
    ensures SetOf(Unabsorbed(list, c) + [c]) == (set x | x in SetOf(list) && !Below(c, x)) + {c}
    ensures forall b :: b in SetOf(list) ==> !Below(b, c)
  {
    var kept := Unabsorbed(list, c);
    UnabsorbedMembers(list, c);
    UnabsorbedNormal(sort, list, c);
    forall i | 0 <= i < |kept| ensures !Below(kept[i], c) && !Below(c, kept[i]) {
      assert kept[i] in kept;
      var j :| 0 <= j < |list| && list[j] == kept[i];
    }
  }

  lemma {:induction false} InsertAllMeaning(sort: Sort, list: seq<DimClause>, cs: seq<DimClause>, work: nat)
    requires ListNormal(sort, list)
    ensures match InsertAll(sort, list, cs, work)
            case Limit => true
            case Done(next, _) => ListNormal(sort, next) && SetOf(next) == Reduce(sort, SetOf(list) + SetOf(cs))
    decreases |cs|
  {
    if cs == [] {
      ListNormalIsNormal(sort, list);
      ReduceFixed(sort, SetOf(list));
      assert SetOf(list) + SetOf(cs) == SetOf(list);
    } else {
      InsertMeaning(sort, list, cs[0], work);
      var run := InsertRun(sort, list, cs[0], work);
      if run.Done? {
        InsertAllMeaning(sort, run.list, cs[1..], run.work);
        ReduceUnion(sort, SetOf(list) + {cs[0]}, SetOf(cs[1..]));
        assert SetOf(list) + SetOf(cs) == SetOf(list) + {cs[0]} + SetOf(cs[1..]);
      }
    }
  }

  /** Small inputs never meet a limit. */
  lemma {:induction false} InsertAllSucceeds(sort: Sort, list: seq<DimClause>, cs: seq<DimClause>, work: nat,
                                             bound: nat)
    requires |list| + |cs| <= bound <= MAX_CLAUSES
    requires work + 2 * bound * |cs| <= MAX_LATTICE_WORK
    ensures match InsertAll(sort, list, cs, work)
            case Limit => false
            case Done(next, spent) => |next| <= |list| + |cs| && spent <= work + 2 * bound * |cs|
    decreases |cs|
  {
    if cs != [] {
      assert 2 * bound * |cs| == 2 * bound + 2 * bound * |cs[1..]|;
      var run := InsertRun(sort, list, cs[0], work);
      assert run.Done? && run.work <= work + 2 * bound && |run.list| <= |list| + 1;
      InsertAllSucceeds(sort, run.list, cs[1..], run.work, bound);
    }
  }

  // ---- Join and meet -----------------------------------------------------------

  function CopyRun(sort: Sort, a: seq<DimClause>): Outcome {
    if |a| > MAX_CLAUSES then Limit else InsertAll(sort, [], a, 0)
  }

  function JoinRun(sort: Sort, a: seq<DimClause>, b: seq<DimClause>, work: nat): Outcome {
    if |a| + |b| > MAX_CLAUSES then Limit else InsertAll(sort, [], a + b, work)
  }

  function Row(c: DimClause, b: seq<DimClause>): (row: seq<DimClause>)
    ensures |row| == |b|
  {
    if b == [] then [] else [Both(c, b[0])] + Row(c, b[1..])
  }

  function Products(a: seq<DimClause>, b: seq<DimClause>): seq<DimClause> {
    if a == [] then [] else Row(a[0], b) + Products(a[1..], b)
  }

  function MeetRun(sort: Sort, a: seq<DimClause>, b: seq<DimClause>, work: nat): Outcome {
    if a != [] && |b| > MAX_CLAUSES / |a| then Limit else InsertAll(sort, [], Products(a, b), work)
  }

  lemma {:induction false} RowMembers(c: DimClause, b: seq<DimClause>)
    ensures SetOf(Row(c, b)) == Pairs({c}, SetOf(b))
  {
    if b != [] {
      RowMembers(c, b[1..]);
      assert SetOf(b) == {b[0]} + SetOf(b[1..]);
      assert SetOf(Row(c, b)) == {Both(c, b[0])} + SetOf(Row(c, b[1..]));
    }
  }

  lemma {:induction false} ProductsMembers(a: seq<DimClause>, b: seq<DimClause>)
    ensures SetOf(Products(a, b)) == Pairs(SetOf(a), SetOf(b))
  {
    if a != [] {
      RowMembers(a[0], b);
      ProductsMembers(a[1..], b);
      assert SetOf(a) == {a[0]} + SetOf(a[1..]);
      assert SetOf(Products(a, b)) == SetOf(Row(a[0], b)) + SetOf(Products(a[1..], b));
    }
  }

  lemma CopyMeaning(sort: Sort, a: seq<DimClause>)
    ensures match CopyRun(sort, a)
            case Limit => true
            case Done(list, _) => ListNormal(sort, list) && SetOf(list) == Reduce(sort, SetOf(a))
  {
    InsertAllMeaning(sort, [], a, 0);
    assert SetOf([]) + SetOf(a) == SetOf(a);
  }

  lemma JoinMeaning(sort: Sort, a: seq<DimClause>, b: seq<DimClause>, work: nat)
    ensures match JoinRun(sort, a, b, work)
            case Limit => true
            case Done(list, _) => ListNormal(sort, list) && SetOf(list) == JoinOf(sort, SetOf(a), SetOf(b))
  {
    InsertAllMeaning(sort, [], a + b, work);
    assert SetOf([]) + SetOf(a + b) == SetOf(a) + SetOf(b);
  }

  lemma MeetMeaning(sort: Sort, a: seq<DimClause>, b: seq<DimClause>, work: nat)
    ensures match MeetRun(sort, a, b, work)
            case Limit => true
            case Done(list, _) => ListNormal(sort, list) && SetOf(list) == MeetOf(sort, SetOf(a), SetOf(b))
  {
    InsertAllMeaning(sort, [], Products(a, b), work);
    ProductsMembers(a, b);
    assert SetOf([]) + SetOf(Products(a, b)) == Pairs(SetOf(a), SetOf(b));
  }

  /** Formulas of at most a thousand clauses in all always have a join. */
  lemma JoinSucceeds(sort: Sort, a: seq<DimClause>, b: seq<DimClause>)
    requires |a| + |b| <= 1000
    ensures JoinRun(sort, a, b, 0).Done?
  {
    InsertAllSucceeds(sort, [], a + b, 0, 1000);
  }

  // ---- Equality ----------------------------------------------------------------

  predicate SameClauses(a: seq<DimClause>, b: seq<DimClause>) {
    |a| == |b| && forall i :: 0 <= i < |a| ==> a[i] in b
  }

  /** The length and membership test decides semantic equality of the sort. */
  lemma EqualityIsComplete(sort: Sort, a: seq<DimClause>, b: seq<DimClause>)
    requires ListNormal(sort, a) && ListNormal(sort, b)
    ensures SameClauses(a, b) <==> SetOf(a) == SetOf(b)
    ensures SameClauses(a, b) <==> Equivalent(sort, SetOf(a), SetOf(b))
  {
    ListNormalIsNormal(sort, a);
    ListNormalIsNormal(sort, b);
    DistinctSize(a);
    DistinctSize(b);
    Canonical(sort, SetOf(a), SetOf(b));
    if SameClauses(a, b) {
      assert SetOf(a) <= SetOf(b);
      SubsetSize(SetOf(a), SetOf(b));
    }
    if SetOf(a) == SetOf(b) {
      assert forall i :: 0 <= i < |a| ==> a[i] in SetOf(b);
    }
  }

  // ---- The mutable formula ---------------------------------------------------------

  /** A growing clause buffer: `clauses.Length` is the capacity. */
  class Formula {
    var sort: Sort
    var clauses: array<DimClause>
    var length: nat

    ghost predicate Valid() reads this {
      length <= clauses.Length
    }

    ghost function List(): seq<DimClause>
      reads this, clauses
      requires Valid()
    {
      clauses[..length]
    }

    constructor (s: Sort)
      ensures Valid() && fresh(clauses) && sort == s && List() == []
    {
      sort := s;
      clauses := new DimClause[0];
      length := 0;
    }

    /** Takes over a finished candidate's buffer. */
    method Publish(candidate: Formula)
      requires candidate.Valid() && candidate.sort == sort
      modifies this
      ensures Valid() && List() == old(candidate.List()) && sort == old(sort)
      ensures clauses == old(candidate.clauses)
    {
      length := candidate.length;
      clauses := candidate.clauses;
    }

    method Reserve(needed: nat)
      requires Valid()
      modifies this`clauses
      ensures Valid() && List() == old(List())
      ensures clauses == old(clauses) || fresh(clauses)
      ensures needed == old(clauses.Length) ==> clauses.Length > needed
      ensures clauses.Length >= old(clauses.Length)
    {
      if needed == clauses.Length {
        var grown := new DimClause[if clauses.Length == 0 then 4 else 2 * clauses.Length](_ => Top());
        for i := 0 to length
          modifies grown
          invariant forall j :: 0 <= j < i ==> grown[j] == clauses[j]
        {
          grown[i] := clauses[i];
        }
        clauses := grown;
      }
    }

    /** Drops, in place, the clauses that `c` absorbs. */
    method Compact(c: DimClause)
      requires Valid()
      modifies this`length, clauses
      ensures Valid() && List() == Unabsorbed(old(List()), c)
    {
      var next := 0;
      ghost var was := List();
      for i := 0 to length
        invariant length == old(length) && Valid() && next <= i
        invariant clauses[..next] == Unabsorbed(was[..i], c)
        invariant forall j :: i <= j < length ==> clauses[j] == was[j]
      {
        ghost var kept := clauses[..next];
        assert was[..i + 1][..i] == was[..i];
        if !Below(c, clauses[i]) {
          clauses[next] := clauses[i];
          assert clauses[..next] == kept;
          next := next + 1;
          assert clauses[..next] == kept + [was[i]];
        }
      }
      assert was[..length] == was;
      length := next;
    }

    /** Makes room for `c` and puts it behind the clauses it does not absorb. */
    method Absorb(c: DimClause, kept: nat)
      requires Valid() && kept == |Unabsorbed(List(), c)|
      modifies this`length, this`clauses, clauses
      ensures Valid() && (clauses == old(clauses) || fresh(clauses))
      ensures List() == Unabsorbed(old(List()), c) + [c]
    {
      ghost var left := Unabsorbed(List(), c);
      Reserve(kept);
      Compact(c);
      clauses[length] := c;
      assert clauses[..length] == left;
      length := length + 1;
    }

    /** Whether a clause of the list absorbs `c`. */
    method FindAbsorbing(c: DimClause, work: nat) returns (status: Status, found: bool, spent: nat)
      requires Valid()
      ensures found ==> status == Ok
      ensures status == Ok ==> found == (Misses(List(), c) < length)
      ensures status == Ok ==> spent == work + Misses(List(), c) + if found then 1 else 0
      ensures status == Ok ==> spent == work || spent <= MAX_LATTICE_WORK
      ensures status != Ok ==> status == LimitExceeded && length > 0 && MAX_LATTICE_WORK < spent <= work + length
      ensures status != Ok ==> spent <= work + Misses(List(), c) + 1
    {
      spent := work;
      for i := 0 to length
        invariant spent == work + i && (i > 0 ==> spent <= MAX_LATTICE_WORK)
        invariant i <= Misses(List(), c)
      {
        spent := spent + 1;
        if spent > MAX_LATTICE_WORK { return LimitExceeded, false, spent; }
        if Below(clauses[i], c) {
          assert List()[i] == clauses[i];
          return Ok, true, spent;
        }
        MissesBeyond(List(), c, i);
      }
      return Ok, false, spent;
    }

    /** How many clauses `c` leaves unabsorbed. */
    method CountUnabsorbed(c: DimClause, work: nat) returns (status: Status, kept: nat, spent: nat)
      requires Valid()
      ensures status == Ok ==> kept == |Unabsorbed(List(), c)| && spent == work + length
      ensures status == Ok ==> spent == work || spent <= MAX_LATTICE_WORK
      ensures status != Ok ==> status == LimitExceeded && length > 0 && MAX_LATTICE_WORK < spent <= work + length
    {
      spent, kept := work, 0;
      for i := 0 to length
        invariant spent == work + i && (i > 0 ==> spent <= MAX_LATTICE_WORK)
        invariant kept == |Unabsorbed(List()[..i], c)|
      {
        assert List()[..i + 1][..i] == List()[..i];
        spent := spent + 1;
        if spent > MAX_LATTICE_WORK { return LimitExceeded, kept, spent; }
        if !Below(c, clauses[i]) { kept := kept + 1; }
      }
      assert List()[..length] == List();
      status := Ok;
    }

    /** Absorption in place. On a limit the list is unchanged. */
    method Insert(c: DimClause, work: nat) returns (status: Status, spent: nat)
      requires Valid()
      modifies this`length, this`clauses, clauses
      ensures Valid() && (clauses == old(clauses) || fresh(clauses))
      ensures status != Ok ==> List() == old(List()) && status == LimitExceeded
      ensures InsertRun(sort, old(List()), c, work) == if status == Ok then Done(List(), spent) else Limit
    {
      spent := work;
      if length > MAX_CLAUSES { return LimitExceeded, spent; }
      if !Consistent(sort, c) { return Ok, spent; }
      var found, kept;
      status, found, spent := FindAbsorbing(c, spent);
      if status != Ok || found { return; }
      status, kept, spent := CountUnabsorbed(c, spent);
      if status != Ok { return; }
      if kept == MAX_CLAUSES { return LimitExceeded, spent; }
      Absorb(c, kept);
    }

    /** Inserts the clauses of a list in order; the loop shared by copy and join. */
    method InsertEach(source: Formula, work: nat) returns (status: Status, spent: nat)
      requires Valid() && source.Valid() && source != this && source.clauses != clauses
      modifies this`length, this`clauses, clauses
      ensures Valid() && (clauses == old(clauses) || fresh(clauses))
      ensures status == Ok || status == LimitExceeded
      ensures InsertAll(sort, old(List()), source.List(), work) == if status == Ok then Done(List(), spent) else Limit
    {
      status, spent := Ok, work;
      ghost var all := source.List();
      var i := 0;
      while i < source.length
        invariant i <= source.length && Valid() && (clauses == old(clauses) || fresh(clauses))
        invariant status == Ok && source.List() == all && source.clauses != clauses
        invariant InsertAll(sort, old(List()), all, work) == InsertAll(sort, List(), all[i..], spent)
      {
        assert all[i..][1..] == all[i + 1..];
        status, spent := Insert(source.clauses[i], spent);
        if status != Ok { return; }
        i := i + 1;
      }
    }

    /** Inserts the products of one clause with the clauses of `b`. */
    method InsertRow(c: DimClause, b: Formula, work: nat) returns (status: Status, spent: nat)
      requires Valid() && b.Valid() && b != this && b.clauses != clauses
      modifies this`length, this`clauses, clauses
      ensures Valid() && (clauses == old(clauses) || fresh(clauses))
      ensures status == Ok || status == LimitExceeded
      ensures InsertAll(sort, old(List()), Row(c, b.List()), work) == if status == Ok then Done(List(), spent)
              else Limit
    {
      status, spent := Ok, work;
      ghost var right := b.List();
      var j := 0;
      while j < b.length
        invariant j <= b.length && Valid() && (clauses == old(clauses) || fresh(clauses))
        invariant status == Ok && b.List() == right && b.clauses != clauses
        invariant InsertAll(sort, old(List()), Row(c, right), work)
                  == InsertAll(sort, List(), Row(c, right[j..]), spent)
      {
        assert right[j..][1..] == right[j + 1..];
        status, spent := Insert(Both(c, b.clauses[j]), spent);
        if status != Ok { return; }
        j := j + 1;
      }
    }

    method Zero()
      modifies this
      ensures Valid() && List() == [] && sort == old(sort) && fresh(clauses)
    {
      clauses := new DimClause[0];
      length := 0;
    }

    method One()
      modifies this
      ensures Valid() && List() == [Top()] && sort == old(sort) && fresh(clauses)
    {
      var candidate := new Formula(sort);
      var status, _ := candidate.Insert(Top(), 0);
      Publish(candidate);
    }

    /** The generator of a dimension; an identifier out of range is rejected. */
    method Generator(dimension: nat, positive: bool) returns (status: Status)
      requires Valid()
      modifies this
      ensures Valid() && sort == old(sort)
      ensures dimension >= DIMENSIONS ==> status == BadInput && unchanged(this)
      ensures dimension < DIMENSIONS ==>
                status == Ok && fresh(clauses)
                && List() == [if positive then Clause({dimension}, {}) else Clause({}, {dimension})]
    {
      if dimension >= DIMENSIONS { return BadInput; }
      var d: Dim := dimension;
      var candidate := new Formula(sort);
      var _, _ := candidate.Insert(if positive then Clause({d}, {}) else Clause({}, {d}), 0);
      Publish(candidate);
      return Ok;
    }

    /** Outputs are published whole: on a failure the output, which may be an input,
        is unchanged. */
    method Copy(a: Formula) returns (status: Status)
      requires Valid() && a.Valid()
      modifies this
      ensures Valid() && sort == old(sort)
      ensures status == BadInput <==> sort != a.sort
      ensures status != Ok ==> unchanged(this)
      ensures status == Ok ==> fresh(clauses)
      ensures status != BadInput ==>
                match CopyRun(sort, old(a.List()))
                case Done(list, _) => status == Ok && List() == list
                case Limit => status == LimitExceeded
    {
      if sort != a.sort { return BadInput; }
      if a.length > MAX_CLAUSES { return LimitExceeded; }
      var candidate := new Formula(sort);
      var spent;
      status, spent := candidate.InsertEach(a, 0);
      if status == Ok { Publish(candidate); }
    }

    method Join(a: Formula, b: Formula, work: nat) returns (status: Status, spent: nat)
      requires Valid() && a.Valid() && b.Valid()
      modifies this
      ensures Valid() && sort == old(sort)
      ensures status == BadInput <==> !(sort == old(a.sort) == old(b.sort))
      ensures status != Ok ==> unchanged(this)
      ensures status == Ok ==> fresh(clauses)
      ensures status != BadInput ==>
                JoinRun(sort, old(a.List()), old(b.List()), work)
                == if status == Ok then Done(List(), spent) else Limit
    {
      spent := work;
      if !(sort == a.sort && a.sort == b.sort) { return BadInput, spent; }
      if a.length > MAX_CLAUSES || b.length > MAX_CLAUSES || b.length > MAX_CLAUSES - a.length {
        return LimitExceeded, spent;
      }
      var candidate := new Formula(sort);
      ghost var left, right := a.List(), b.List();
      InsertAllConcat(sort, [], left, right, work);
      status, spent := candidate.InsertEach(a, spent);
      if status == Ok { status, spent := candidate.InsertEach(b, spent); }
      if status == Ok { Publish(candidate); }
    }

    method Meet(a: Formula, b: Formula, work: nat) returns (status: Status, spent: nat)
      requires Valid() && a.Valid() && b.Valid()
      modifies this
      ensures Valid() && sort == old(sort)
      ensures status == BadInput <==> !(sort == old(a.sort) == old(b.sort))
      ensures status != Ok ==> unchanged(this)
      ensures status == Ok ==> fresh(clauses)
      ensures status != BadInput ==>
                MeetRun(sort, old(a.List()), old(b.List()), work)
                == if status == Ok then Done(List(), spent) else Limit
    {
      spent := work;
      if !(sort == a.sort && a.sort == b.sort) { return BadInput, spent; }
      if a.length > 0 && b.length > MAX_CLAUSES / a.length { return LimitExceeded, spent; }
      var candidate := new Formula(sort);
      ghost var left, right := a.List(), b.List();
      var i := 0;
      while i < a.length
        invariant i <= a.length && candidate.Valid() && fresh(candidate) && fresh(candidate.clauses)
        invariant unchanged(this) && a.List() == left && b.List() == right && candidate.sort == sort
        invariant InsertAll(sort, [], Products(left, right), work)
               == InsertAll(sort, candidate.List(), Products(left[i..], right), spent)
      {
        assert left[i..][1..] == left[i + 1..];
        InsertAllConcat(sort, candidate.List(), Row(left[i], right), Products(left[i + 1..], right), spent);
        status, spent := candidate.InsertRow(a.clauses[i], b, spent);
        if status != Ok { return; }
        i := i + 1;
      }
      status := Ok;
      Publish(candidate);
    }

    method Equal(b: Formula) returns (equal: bool)
      requires Valid() && b.Valid()
      ensures equal <==> sort == b.sort && SameClauses(List(), b.List())
    {
      if sort != b.sort || length != b.length { return false; }
      for i := 0 to length
        invariant forall k :: 0 <= k < i ==> List()[k] in b.List()
      {
        var found := false;
        for j := 0 to b.length
          invariant !found && clauses[i] !in b.clauses[..j]
        {
          if clauses[i] == b.clauses[j] {
            assert b.List()[j] == List()[i];
            found := true;
            break;
          }
        }
        if !found {
          assert b.clauses[..b.length] == b.List() && List()[i] == clauses[i];
          return false;
        }
      }
      return true;
    }
  }

  lemma {:induction false} InsertAllConcat(sort: Sort, list: seq<DimClause>, a: seq<DimClause>, b: seq<DimClause>,
                                           work: nat)
    ensures InsertAll(sort, list, a + b, work)
            == match InsertAll(sort, list, a, work)
               case Limit => Limit
               case Done(next, spent) => InsertAll(sort, next, b, spent)
    decreases |a|
  {
    if a == [] {
      assert a + b == b;
    } else {
      assert (a + b)[0] == a[0] && (a + b)[1..] == a[1..] + b;
      match InsertRun(sort, list, a[0], work)
      case Limit =>
      case Done(next, spent) => InsertAllConcat(sort, next, a[1..], b, spent);
    }
  }
}
