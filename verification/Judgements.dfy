/** instructions.c: the judgement store. Judgements, context entries and context sets
    are appended by instructions and truncated by a rollback. Two hash tables, of
    derivations and of symbols, survive truncation with stale ids in them. */
module Judgements {
  import opened Lattice
  import opened Formulas
  import opened Contexts
  import opened Systems
  import opened Index

  const STORE_LIMIT := 0xffffffff
  const POSITION_LIMIT := 1024

  function SymbolKey(e: Entry): Key<nat> { if Named(e) then Key(e.symbol) else NoKey }

  function SymbolKeys(entries: seq<Entry>): seq<Key<nat>> {
    seq(|entries|, i requires 0 <= i < |entries| => if i == 0 then NoKey else SymbolKey(entries[i]))
  }

  function DerivationKeys(facts: seq<Fact>): seq<Key<Derivation>> {
    seq(|facts|, i requires 0 <= i < |facts| => if i == 0 then NoKey else Key(facts[i].how))
  }

  ghost predicate AllContexts(entries: seq<Entry>, lists: seq<seq<nat>>, facts: seq<Fact>) {
    forall i :: 0 < i < |facts| ==> SetOk(entries, lists, facts[i].context)
  }

  /** No instruction is recorded twice. */
  ghost predicate DerivedOnce(facts: seq<Fact>) {
    forall i, j :: 0 < i < j < |facts| ==> facts[i].how != facts[j].how
  }

  /** The store's contents are in order. */
  ghost predicate ContentsOk(l: Language, entries: seq<Entry>, lists: seq<seq<nat>>, facts: seq<Fact>) {
    && StoreOk(entries, lists) && FactsOk(l, facts) && AllContexts(entries, lists, facts) && DerivedOnce(facts)
  }

  /** Every live dimension entry is the cached one for its index. */
  ghost predicate DimensionsCached(entries: seq<Entry>, cached: seq<nat>) {
    |cached| == DIMENSIONS
    && forall i :: 0 < i < |entries| && entries[i].role == DimensionRole && entries[i].symbol < DIMENSIONS ==>
         cached[entries[i].symbol] == i
  }

  class Graph {
    const language: Language
    const derivations: Table<Derivation>
    const symbols: Table<nat>

    var entries: seq<Entry>
    var lists: seq<seq<nat>>
    var facts: seq<Fact>
    var cached: seq<nat>
    var failed: bool
    /** The counts at the checkpoint, 0 for none. */
    var savedFacts: nat
    var savedEntries: nat
    var savedLists: nat

    ghost predicate Tables() reads this, derivations, derivations.slots, symbols, symbols.slots {
      && derivations.Valid(DerivationKeys(facts)) && symbols.Valid(SymbolKeys(entries))
      && derivations.slots != symbols.slots
    }

    ghost predicate Contents() reads this {
      && ContentsOk(language, entries, lists, facts) && DimensionsCached(entries, cached)
      && (savedFacts > 0 ==>
            && savedFacts <= |facts| && savedEntries <= |entries| && savedLists <= |lists|
            && ContentsOk(language, entries[..savedEntries], lists[..savedLists], facts[..savedFacts]))
    }

    ghost predicate Valid() reads this, derivations, derivations.slots, symbols, symbols.slots {
      Contents() && Tables()
    }

    /** Nothing is lost while no rollback intervenes. */
    twostate predicate Grown() reads this {
      && old(entries) <= entries && old(lists) <= lists && old(facts) <= facts && (old(failed) ==> failed)
      && savedFacts == old(savedFacts) && savedEntries == old(savedEntries) && savedLists == old(savedLists)
    }

    constructor (language: Language, hash: Derivation -> nat, symbolHash: nat -> nat)
      ensures Valid() && |facts| == 1 && |entries| == 1 && !failed && savedFacts == 0
    {
      this.language := language;
      derivations := new Table(hash, 1024);
      symbols := new Table(symbolHash, 256);
      var none := Derivation(OtherRule(0), [], 0, [], 0, []);
      entries := [Entry(TermRole, 0, Clause({}, {}), Handle(0), 0, 0, 0)];
      lists := [[]];
      facts := [Fact(Nothing, Handle(0), Handle(0), Handle(0), 0, none, {})];
      cached := seq(DIMENSIONS, i => 0);
      failed, savedFacts, savedEntries, savedLists := false, 0, 0, 0;
      new;
      assert DerivationKeys(facts) == [NoKey];
      assert SymbolKeys(entries) == [NoKey];
    }

    // ---- Context sets ------------------------------------------------------------------------

    /** Whether an entry is in a sorted set, by bisection. */
    method Contains(items: seq<nat>, id: nat) returns (found: bool)
      requires Sorted(items)
      ensures found <==> id in items
    {
      var low, high := 0, |items|;
      while low < high
        invariant 0 <= low <= high <= |items|
        invariant forall i :: 0 <= i < |items| && items[i] == id ==> low <= i < high
      {
        var middle := low + (high - low) / 2;
        if items[middle] == id { return true; }
        if items[middle] < id { low := middle + 1; } else { high := middle; }
      }
      return false;
    }

    /** Publishes a set. The empty one is always set zero. */
    method PublishSet(z: seq<nat>) returns (ok: bool, id: nat)
      requires |lists| > 0 && lists[0] == []
      modifies `lists, `failed
      ensures old(lists) <= lists && (old(failed) ==> failed)
      ensures ok ==> id < |lists| && lists[id] == z && failed == old(failed)
      ensures !ok ==> failed && lists == old(lists) && |lists| >= STORE_LIMIT
    {
      if z == [] { return true, 0; }
      if |lists| >= STORE_LIMIT {
        failed := true;
        return false, 0;
      }
      lists := lists + [z];
      return true, |lists| - 1;
    }

    /** The dimensions met so far, each from an entry of the union. */
    ghost predicate MetIn(entries: seq<Entry>, z: seq<nat>, dimensions: set<nat>) {
      forall d :: d in dimensions ==>
        exists k :: k in z && k < |entries| && entries[k].role == DimensionRole && entries[k].symbol == d
    }

    /** Appends an entry to the union, unless another dimension entry of its index is in
        it. */
    method Include(entries: seq<Entry>, z: seq<nat>, dimensions: set<nat>, next: nat)
      returns (ok: bool, z': seq<nat>, dimensions': set<nat>)
      requires Sorted(z) && (z == [] || z[|z| - 1] < next) && 0 < next < |entries| && MetIn(entries, z, dimensions)
      ensures ok ==>
                z' == z + [next] && Sorted(z') && Members(z') == Members(z) + {next} && MetIn(entries, z', dimensions')
      ensures !ok ==> exists k :: k in z && Captures(entries, k, next)
    {
      SortedAppend(z, next);
      z', dimensions' := z + [next], dimensions;
      if entries[next].role == DimensionRole {
        if entries[next].symbol in dimensions {
          var k :| k in z && k < |entries| && entries[k].role == DimensionRole
              && entries[k].symbol == entries[next].symbol;
          assert Captures(entries, k, next);
          return false, z, dimensions;
        }
        dimensions' := dimensions + {entries[next].symbol};
        assert next in z';
      }
      forall d | d in dimensions'
        ensures exists k :: k in z' && k < |entries| && entries[k].role == DimensionRole && entries[k].symbol == d
      {
        if d in dimensions {
          var k :| k in z && k < |entries| && entries[k].role == DimensionRole && entries[k].symbol == d;
          assert k in z';
        } else {
          assert next in z' && entries[next].symbol == d;
        }
      }
      ok := true;
    }

    /** The sorted union of two sets, unless two dimension entries of one index meet. */
    method Zip(entries: seq<Entry>, x: seq<nat>, y: seq<nat>) returns (ok: bool, z: seq<nat>)
      requires Sorted(x) && Sorted(y)
      requires forall i :: i in x || i in y ==> 0 < i < |entries|
      ensures ok ==> Sorted(z) && Members(z) == Members(x) + Members(y)
      ensures !ok ==> Conflict(entries, Members(x) + Members(y))
    {
      var i, j := 0, 0;
      var dimensions: set<nat> := {};
      z := [];
      while i < |x| || j < |y|
        invariant i <= |x| && j <= |y|
        invariant Sorted(z) && Members(z) == Members(x[..i]) + Members(y[..j]) && MetIn(entries, z, dimensions)
        invariant Members(z) <= Members(x) + Members(y)
        invariant z == [] || ((i < |x| ==> z[|z| - 1] < x[i]) && (j < |y| ==> z[|z| - 1] < y[j]))
        decreases |x| - i + |y| - j
      {
        var next;
        if i < |x| { MembersTaken(x, i); }
        if j < |y| { MembersTaken(y, j); }
        if j == |y| || (i < |x| && x[i] < y[j]) {
          next, i := x[i], i + 1;
        } else if i == |x| || y[j] < x[i] {
          next, j := y[j], j + 1;
        } else {
          next, i, j := x[i], i + 1, j + 1;
        }
        var included, z', dimensions' := Include(entries, z, dimensions, next);
        if !included {
          var k :| k in z && Captures(entries, k, next);
          assert k in Members(z);
          return false, z;
        }
        z, dimensions := z', dimensions';
      }
      assert x[..i] == x && y[..j] == y;
      return true, z;
    }

    /** The union of two sets: one of them where it is the union already. `roles` are
        the entries, with one that is still being made. */
    method MergeSets(roles: seq<Entry>, a: nat, b: nat) returns (ok: bool, out: nat)
      requires |lists| > 0 && lists[0] == [] && a < |lists| && b < |lists| && Sorted(lists[a]) && Sorted(lists[b])
      requires forall i :: i in lists[a] || i in lists[b] ==> 0 < i < |roles|
      modifies `lists, `failed
      ensures old(lists) <= lists && (old(failed) ==> failed)
      ensures ok ==> out < |lists| && Sorted(lists[out]) && Members(lists[out]) == Members(lists[a]) + Members(lists[b])
      ensures ok ==> failed == old(failed)
      ensures !ok ==> failed && lists == old(lists)
      ensures !ok ==> old(failed) || |lists| >= STORE_LIMIT || Conflict(roles, Members(lists[a]) + Members(lists[b]))
    {
      if failed { return false, 0; }
      if a == b || b == 0 { return true, a; }
      if a == 0 { return true, b; }
      var x, y := lists[a], lists[b];
      var zipped, z := Zip(roles, x, y);
      if !zipped {
        failed := true;
        return false, 0;
      }
      if |z| == |x| {
        SameMembers(x, z);
        return true, a;
      }
      if |z| == |y| {
        SameMembers(y, z);
        return true, b;
      }
      ok, out := PublishSet(z);
    }

    /** The union of two contexts is one. It is never refused: distinct dimension entries
        of one index are not live together. */
    method Merge(a: nat, b: nat) returns (ok: bool, out: nat)
      requires Valid() && SetOk(entries, lists, a) && SetOk(entries, lists, b)
      modifies `lists, `failed
      ensures Valid() && Grown()
      ensures ok ==> SetOk(entries, lists, out) && Members(lists[out]) == Members(lists[a]) + Members(lists[b])
      ensures !ok ==> failed && (old(failed) || |lists| >= STORE_LIMIT)
      ensures ok ==> failed == old(failed)
    {
      ghost var before := lists;
      ok, out := MergeSets(entries, a, b);
      ListsGrew(before);
      if ok {
        UnionOk(entries, lists, lists[a], lists[b], lists[out]);
      } else {
        NoConflict(entries, Members(lists[a]) + Members(lists[b]));
      }
    }

    /** New sets leave the store in order. */
    lemma ListsGrew(before: seq<seq<nat>>)
      requires before <= lists && ContentsOk(language, entries, before, facts) && DimensionsCached(entries, cached)
      requires savedFacts > 0 ==>
                 && savedFacts <= |facts| && savedEntries <= |entries| && savedLists <= |before|
                 && ContentsOk(language, entries[..savedEntries], before[..savedLists], facts[..savedFacts])
      ensures Contents()
      ensures forall id: nat :: SetOk(entries, before, id) ==> SetOk(entries, lists, id)
    {
      ListPublished(entries, before, lists);
      forall id: nat | SetOk(entries, before, id) ensures SetOk(entries, lists, id) {
        ContextGrows(entries, before, entries, lists, before[id]);
      }
      if savedFacts > 0 { assert lists[..savedLists] == before[..savedLists]; }
    }

    // ---- Discharge --------------------------------------------------------------------------

    /** Whether an entry stays in a context that loses others, or stops the discharge. */
    method Stays(x: nat, removed: seq<nat>) returns (ok: bool, stays: bool)
      requires StoreOk(entries, lists) && 0 < x < |entries|
      requires forall r :: 0 <= r < |removed| ==> 0 < removed[r] < |entries|
      ensures ok <==> !Blocked(entries, lists, removed, x)
      ensures ok ==> (stays <==> x !in removed)
    {
      var e := entries[x];
      assert EntryOk(entries, lists, x);
      var r := 0;
      while r < |removed|
        invariant r <= |removed| && x !in removed[..r]
        invariant forall q: nat :: q < r ==> !BlockedBy(entries, lists, removed, x, q)
      {
        var binder := entries[removed[r]];
        if x == removed[r] {
          forall q: nat | q < |removed| ensures !BlockedBy(entries, lists, removed, x, q) {
            if q >= r { assert removed[r] == removed[..q + 1][r]; }
          }
          return true, false;
        }
        assert removed[..r + 1] == removed[..r] + [removed[r]];
        var needs := Contains(lists[e.context], removed[r]);
        if needs || (e.role == binder.role == DimensionRole && e.symbol == binder.symbol) {
          assert BlockedBy(entries, lists, removed, x, r);
          return false, true;
        }
        assert !BlockedBy(entries, lists, removed, x, r);
        r := r + 1;
      }
      assert removed[..r] == removed;
      return true, true;
    }

    /** The entries of a context that stay, unless one of them stops the discharge. */
    method Sift(items: seq<nat>, removed: seq<nat>) returns (ok: bool, z: seq<nat>)
      requires StoreOk(entries, lists) && Sorted(items) && forall i :: 0 <= i < |items| ==> 0 < items[i] < |entries|
      requires forall r :: 0 <= r < |removed| ==> 0 < removed[r] < |entries|
      ensures ok <==> forall i :: 0 <= i < |items| ==> !Blocked(entries, lists, removed, items[i])
      ensures ok ==> Sorted(z) && Members(z) == Members(items) - Members(removed)
      ensures ok && |z| == |items| ==> Members(z) == Members(items)
    {
      z := [];
      var i := 0;
      while i < |items|
        invariant i <= |items| && Sorted(z) && Members(z) == Members(items[..i]) - Members(removed) && |z| <= i
        invariant z == [] || i == 0 || z[|z| - 1] <= items[i - 1]
        invariant |z| == i ==> Members(z) == Members(items[..i])
        invariant forall j :: 0 <= j < i ==> !Blocked(entries, lists, removed, items[j])
      {
        var fine, stays := Stays(items[i], removed);
        MembersTaken(items, i);
        if !fine { return false, z; }
        if stays {
          SortedAppend(z, items[i]);
          z := z + [items[i]];
        }
        i := i + 1;
      }
      assert items[..i] == items;
      ok := true;
    }

    /** Some entry of a context stops its discharge. */
    ghost predicate Stopped(lists: seq<seq<nat>>, items: seq<nat>, removed: seq<nat>)
      reads this
      requires forall i :: 0 <= i < |items| ==> items[i] < |entries|
      requires forall r :: 0 <= r < |removed| ==> removed[r] < |entries|
    {
      exists i :: 0 <= i < |items| && Blocked(entries, lists, removed, items[i])
    }

    lemma MembersLive(a: nat)
      requires SetOk(entries, lists, a)
      ensures forall i :: 0 <= i < |lists[a]| ==> 0 < lists[a][i] < |entries|
    {
      forall i | 0 <= i < |lists[a]| ensures 0 < lists[a][i] < |entries| { assert lists[a][i] in lists[a]; }
    }

    /** A context without some entries. It is refused just when a remaining entry needs
        a removed one. */
    method Discharge(a: nat, removed: seq<nat>) returns (ok: bool, out: nat)
      requires Valid() && SetOk(entries, lists, a) && (forall i :: 0 <= i < |lists[a]| ==> lists[a][i] < |entries|)
      requires forall r :: 0 <= r < |removed| ==> 0 < removed[r] < |entries|
      modifies `lists, `failed
      ensures Valid() && Grown()
      ensures ok ==> SetOk(entries, lists, out) && Members(lists[out]) == Members(lists[a]) - Members(removed)
      ensures ok ==> failed == old(failed) && !Stopped(old(lists), old(lists[a]), removed)
      ensures !ok ==> failed && (old(failed) || |lists| >= STORE_LIMIT || Stopped(old(lists), old(lists[a]), removed))
    {
      if failed { return false, 0; }
      ghost var before := lists;
      var items := lists[a];
      MembersLive(a);
      var z;
      ok, z := Sift(items, removed);
      if !ok {
        failed := true;
        return false, 0;
      }
      if |z| == |items| { return true, a; }
      ok, out := PublishSet(z);
      ListsGrew(before);
      if ok { DischargedOk(before, items, removed, z); }
    }

    lemma DischargedOk(before: seq<seq<nat>>, items: seq<nat>, removed: seq<nat>, z: seq<nat>)
      requires StoreOk(entries, before) && StoreOk(entries, lists) && before <= lists
      requires ContextOk(entries, before, items) && Sorted(z) && Members(z) == Members(items) - Members(removed)
      requires forall r :: 0 <= r < |removed| ==> 0 < removed[r] < |entries|
      requires forall i :: 0 <= i < |items| ==> items[i] < |entries| && !Blocked(entries, before, removed, items[i])
      ensures ContextOk(entries, lists, z)
    {
      forall x | x in Members(items) - Members(removed) ensures Needs(entries, before, x) !! Members(removed) {
        var i :| 0 <= i < |items| && items[i] == x;
        forall r: nat | r < |removed| ensures removed[r] !in Needs(entries, before, x) {
          assert !BlockedBy(entries, before, removed, x, r);
        }
      }
      DifferenceOk(entries, before, items, Members(removed), z);
      ContextGrows(entries, before, entries, lists, z);
    }

    /** The context of a binder over an entry: the body's without it, with what it needs. */
    method Bind(body: nat, e: nat) returns (ok: bool, out: nat)
      requires Valid() && SetOk(entries, lists, body) && 0 < e < |entries|
      modifies `lists, `failed
      ensures Valid() && Grown()
      ensures ok ==> SetOk(entries, lists, out)
                     && Members(lists[out]) == Members(lists[body]) - {e} + Needs(entries, lists, e)
      ensures !ok ==> failed
    {
      assert EntryOk(entries, lists, e);
      var rest;
      MembersLive(body);
      ok, rest := Discharge(body, [e]);
      if !ok { return false, 0; }
      assert EntryOk(entries, lists, e);
      assert Members([e]) == {e};
      ok, out := Merge(rest, entries[e].context);
    }

    /** A face entry of the context that the clause implies. */
    method ImpliedEntry(items: seq<nat>, clause: DimClause) returns (found: bool, id: nat)
      requires forall i :: 0 <= i < |items| ==> items[i] < |entries|
      ensures found ==> id in items && Implied(entries[id], clause)
      ensures !found ==> forall i :: 0 <= i < |items| ==> !Implied(entries[items[i]], clause)
    {
      var i := 0;
      while i < |items|
        invariant i <= |items| && forall j :: 0 <= j < i ==> !Implied(entries[items[j]], clause)
      {
        if Implied(entries[items[i]], clause) { return true, items[i]; }
        i := i + 1;
      }
      return false, 0;
    }

    /** A context on a face: without the face entries that the clause implies, exactly.
        It is refused just when an entry that stays needs one of them. */
    method OnFace(a: nat, clause: DimClause) returns (ok: bool, out: nat)
      requires Valid() && SetOk(entries, lists, a)
      modifies `lists, `failed
      ensures Valid() && Grown()
      ensures ok ==>
                && SetOk(entries, lists, out)
                && Members(lists[out]) == Members(lists[a]) - ImpliedFaces(entries, Members(lists[a]), clause)
                && !FaceNeeded(entries, lists, Members(lists[a]), clause) && failed == old(failed)
      ensures !ok ==> failed
      ensures !ok ==>
                old(failed) || |lists| >= STORE_LIMIT || FaceNeeded(entries, lists, Members(lists[a]), clause)
    {
      if failed { return false, a; }
      out := a;
      ghost var all := Members(lists[a]);
      while true
        invariant Valid() && Grown() && !failed && SetOk(entries, lists, out) && a < |lists|
        invariant lists[a] == old(lists[a])
        invariant Members(lists[out]) <= all && all - ImpliedFaces(entries, all, clause) <= Members(lists[out])
        decreases Members(lists[out])
      {
        MembersLive(out);
        var found, id := ImpliedEntry(lists[out], clause);
        if !found { break; }
        assert id in Members(lists[out]);
        ghost var set0, lists0 := lists[out], lists;
        var fine, next := Discharge(out, [id]);
        if !fine {
          if |lists| < STORE_LIMIT { RefusedOnFace(set0, lists0, id, clause, all); }
          return false, out;
        }
        assert Members([id]) == {id};
        out := next;
      }
      assert Members(lists[out]) == all - ImpliedFaces(entries, all, clause);
      NoFaceNeeded(lists[out], all, clause);
      return true, out;
    }

    lemma NoFaceNeeded(s: seq<nat>, all: set<nat>, clause: DimClause)
      requires ContextOk(entries, lists, s) && Members(s) == all - ImpliedFaces(entries, all, clause)
      ensures !FaceNeeded(entries, lists, all, clause)
    {
      forall x, y | x in all && y in all && x < |entries| && y < |entries| && Implied(entries[y], clause)
          && !Implied(entries[x], clause)
        ensures y !in Needs(entries, lists, x)
      {
        assert x in Members(s) && y !in Members(s);
        assert x in s;
      }
    }

    lemma RefusedOnFace(items: seq<nat>, before: seq<seq<nat>>, id: nat, clause: DimClause, all: set<nat>)
      requires StoreOk(entries, before) && before <= lists && ContextOk(entries, before, items)
      requires Members(items) <= all && id in items && Implied(entries[id], clause)
      requires (forall i :: 0 <= i < |items| ==> 0 < items[i] < |entries|) && Stopped(before, items, [id])
      ensures FaceNeeded(entries, lists, all, clause)
    {
      var i :| 0 <= i < |items| && Blocked(entries, before, [id], items[i]);
      var x := items[i];
      var r: nat :| r < |[id]| && BlockedBy(entries, before, [id], x, r);
      OnlyNeedsBlock(entries, before, [id], x, r);
      assert x in Members(items) && id in Members(items);
      assert EntryOk(entries, before, x);
      if entries[x].role == FaceRole { FacesNeedNoFaces(entries, before, x, id); }
    }

    // ---- Entries ----------------------------------------------------------------------------

    /** Appends an entry over a context, with its scope, unless the store is full. */
    method AddEntry(e: Entry) returns (id: nat)
      requires Valid() && !failed && e.scope == 0 && SetOk(entries, lists, e.context)
      requires match e.role
               case TermRole => e.symbol > 0
               case LevelRole => e.symbol > 0 && lists[e.context] == []
               case DimensionRole => e.symbol < DIMENSIONS && lists[e.context] == []
               case FaceRole => DimensionsOf(entries, lists[e.context], Names(e.clause))
      requires forall i :: 0 < i < |entries| ==> !Clash(entries[i], e)
      modifies this, symbols, symbols.slots
      ensures Valid() && Grown() && facts == old(facts)
      ensures symbols.slots == old(symbols.slots) || fresh(symbols.slots)
      ensures id != 0 ==>
                !failed && id == |old(entries)| && |entries| == id + 1 && entries[id] == e.(scope := entries[id].scope)
      ensures id == 0 ==> failed && entries == old(entries) && |lists| >= STORE_LIMIT
    {
      ghost var before := lists;
      var roles := entries + [e];
      id := |entries|;
      var fine, scope := PublishSet([id]);
      ListsGrew(before);
      if !fine { return 0; }
      EntryMembers(e.context);
      fine, scope := MergeSets(roles, e.context, scope);
      ListsGrew(before);
      if !fine {
        NoClashConflict(entries, e, Members(lists[e.context]) + Members([id]));
        return 0;
      }
      assert Members([id]) == {id};
      Extend(e.(scope := scope));
    }

    lemma EntryMembers(a: nat)
      requires SetOk(entries, lists, a)
      ensures forall i :: i in lists[a] ==> 0 < i < |entries|
    {
    }

    lemma NoClashConflict(entries: seq<Entry>, e: Entry, s: set<nat>)
      requires Unambiguous(entries) && (forall i :: 0 < i < |entries| ==> !Clash(entries[i], e)) && 0 !in s
      ensures !Conflict(entries + [e], s)
    {
      NoConflict(entries + [e], s);
    }

    /** Publishes an entry whose scope exists. */
    method Extend(e: Entry)
      requires Valid() && SetOk(entries, lists, e.context)
      requires e.scope < |lists| && Sorted(lists[e.scope])
      requires Members(lists[e.scope]) == Members(lists[e.context]) + {|entries|}
      requires match e.role
               case TermRole => e.symbol > 0
               case LevelRole => e.symbol > 0 && lists[e.context] == []
               case DimensionRole => e.symbol < DIMENSIONS && lists[e.context] == []
               case FaceRole => DimensionsOf(entries, lists[e.context], Names(e.clause))
      requires forall i :: 0 < i < |entries| ==> !Clash(entries[i], e)
      modifies this`entries, this`cached, symbols, symbols.slots
      ensures symbols.slots == old(symbols.slots) || fresh(symbols.slots)
      ensures Valid() && entries == old(entries) + [e]
    {
      ghost var was := entries;
      EntryPublished(entries, lists, e);
      forall i | 0 < i < |facts| ensures SetOk(entries + [e], lists, facts[i].context) {
        ContextGrows(entries, lists, entries + [e], lists, lists[facts[i].context]);
      }
      var id := |entries|;
      assert SymbolKeys(entries + [e]) == SymbolKeys(entries) + [SymbolKey(e)];
      if Named(e) {
        assert (SymbolKeys(entries) + [SymbolKey(e)])[..id] == SymbolKeys(entries);
        symbols.Add(SymbolKeys(entries + [e]), id);
      } else {
        symbols.Skipped(SymbolKeys(entries));
      }
      if e.role == DimensionRole { cached := cached[e.symbol := id]; }
      entries := entries + [e];
      if savedFacts > 0 { assert entries[..savedEntries] == was[..savedEntries]; }
    }

    /** The entry of a symbol, or 0. */
    method FindEntry(symbol: nat) returns (id: nat)
      requires Valid()
      ensures id != 0 ==> id < |entries| && Named(entries[id]) && entries[id].symbol == symbol
      ensures id == 0 ==> forall i :: 0 < i < |entries| && Named(entries[i]) ==> entries[i].symbol != symbol
    {
      id := symbols.Find(SymbolKeys(entries), symbol);
      if id == 0 {
        forall i | 0 < i < |entries| && Named(entries[i]) ensures entries[i].symbol != symbol {
          assert SymbolKeys(entries)[i] == Key(entries[i].symbol);
        }
      }
    }

    /** A term entry for a type: the same name at the same type is the same entry, and at
        another type, or as a level, is refused. */
    method ExtendTerm(typ: nat, symbol: nat) returns (id: nat)
      requires Valid()
      modifies this, symbols, symbols.slots
      ensures Valid() && Grown() && facts == old(facts)
      ensures symbols.slots == old(symbols.slots) || fresh(symbols.slots)
      ensures id != 0 ==>
                !failed && id < |entries| && Named(entries[id]) && entries[id].symbol == symbol && 0 < typ < |facts|
      ensures id != 0 ==> entries[id].source == typ || language.same(entries[id].typ, facts[typ].term)
      ensures id < |old(entries)| ==> entries == old(entries)
      ensures id != 0 && id == |old(entries)| ==>
                |entries| == id + 1 && entries[id] == Entry(TermRole, symbol, Clause({}, {}), facts[typ].term, typ,
                                                            facts[typ].context, entries[id].scope)
      ensures id <= |old(entries)| && (id == 0 ==> failed)
    {
      if failed { return 0; }
      if typ == 0 || typ >= |facts| || facts[typ].kind != Typing || !language.universe(facts[typ].typ) || symbol == 0 {
        failed := true;
        return 0;
      }
      var t := facts[typ];
      var named := FindEntry(symbol);
      if named != 0 {
        if entries[named].source == typ || language.same(entries[named].typ, t.term) { return named; }
        failed := true;
        return 0;
      }
      assert SetOk(entries, lists, t.context);
      id := AddEntry(Entry(TermRole, symbol, Clause({}, {}), t.term, typ, t.context, 0));
    }

    /** A level entry: the same symbol again is the same entry; a term's is refused. */
    method ExtendLevel(symbol: nat, bound: Term) returns (id: nat)
      requires Valid()
      modifies this, symbols, symbols.slots
      ensures Valid() && Grown() && facts == old(facts)
      ensures symbols.slots == old(symbols.slots) || fresh(symbols.slots)
      ensures id != 0 ==> !failed && id < |entries| && entries[id].role == LevelRole && entries[id].symbol == symbol
      ensures id < |old(entries)| ==> entries == old(entries)
      ensures id != 0 && id == |old(entries)| ==> |entries| == id + 1 && entries[id].typ == bound
      ensures id <= |old(entries)| && (id == 0 ==> failed)
    {
      if failed { return 0; }
      if symbol == 0 {
        failed := true;
        return 0;
      }
      var named := FindEntry(symbol);
      if named != 0 {
        if entries[named].role == LevelRole { return named; }
        failed := true;
        return 0;
      }
      id := AddEntry(Entry(LevelRole, symbol, Clause({}, {}), bound, 0, 0, 0));
    }

    /** The dimension entry of an index: the live one, or a new one. */
    method DimensionEntry(index: nat) returns (id: nat)
      requires Valid() && !failed
      modifies this, symbols, symbols.slots
      ensures Valid() && Grown() && facts == old(facts)
      ensures symbols.slots == old(symbols.slots) || fresh(symbols.slots)
      ensures id != 0 ==> !failed && id < |entries| && entries[id].role == DimensionRole && entries[id].symbol == index
      ensures id != 0 ==> entries == old(entries) || (id == |old(entries)| && |entries| == id + 1)
      ensures id == 0 ==> failed && entries == old(entries)
    {
      if index >= DIMENSIONS {
        failed := true;
        return 0;
      }
      id := cached[index];
      if id != 0 && id < |entries| && entries[id].role == DimensionRole && entries[id].symbol == index { return id; }
      id := AddEntry(Entry(DimensionRole, index, Clause({}, {}), Handle(0), 0, 0, 0));
    }

    /** One more dimension for a face's context. */
    method IncludeEntry(a: nat, d: nat, ghost names: set<nat>) returns (ok: bool, out: nat)
      requires Valid() && !failed && d < DIMENSIONS && SetOk(entries, lists, a)
      requires DimensionsOf(entries, lists[a], names)
      modifies this, symbols, symbols.slots
      ensures Valid() && Grown() && facts == old(facts)
      ensures symbols.slots == old(symbols.slots) || fresh(symbols.slots)
      ensures forall i :: |old(entries)| <= i < |entries| ==> entries[i].role == DimensionRole
      ensures ok ==> !failed && SetOk(entries, lists, out) && DimensionsOf(entries, lists[out], names + {d})
      ensures !ok ==> failed
    {
      ghost var was, listsWas := entries, lists;
      var entry := DimensionEntry(d);
      if entry == 0 { return false, 0; }
      ContextGrows(was, listsWas, entries, lists, listsWas[a]);
      assert EntryOk(entries, lists, entry);
      ok, out := Merge(a, entries[entry].scope);
      if ok { IncludeDimension(was, entries, listsWas[a], names, entry, lists[out]); }
    }

    /** The context of a face's dimensions. */
    method DimensionContext(names: set<Dim>) returns (ok: bool, out: nat)
      requires Valid() && !failed
      modifies this, symbols, symbols.slots
      ensures Valid() && Grown() && facts == old(facts)
      ensures symbols.slots == old(symbols.slots) || fresh(symbols.slots)
      ensures forall i :: |old(entries)| <= i < |entries| ==> entries[i].role == DimensionRole
      ensures ok ==> !failed && SetOk(entries, lists, out) && DimensionsOf(entries, lists[out], names)
      ensures !ok ==> failed
    {
      out := 0;
      var d := 0;
      ghost var done: set<nat> := {};
      while d < DIMENSIONS
        invariant Valid() && Grown() && !failed && facts == old(facts) && d <= DIMENSIONS
        invariant symbols.slots == old(symbols.slots) || fresh(symbols.slots)
        invariant forall i :: |old(entries)| <= i < |entries| ==> entries[i].role == DimensionRole
        invariant done == (set e | e in names && e < d)
        invariant SetOk(entries, lists, out) && DimensionsOf(entries, lists[out], done)
      {
        if d in names {
          var fine;
          fine, out := IncludeEntry(out, d, done);
          if !fine { return false, 0; }
          done := done + {d};
        }
        d := d + 1;
      }
      assert done == names;
      ok := true;
    }

    lemma IncludeDimension(was: seq<Entry>, now: seq<Entry>, s: seq<nat>, names: set<nat>, entry: nat, z: seq<nat>)
      requires DimensionsOf(was, s, names) && was <= now && 0 < entry < |now| && now[entry].role == DimensionRole
      requires Members(z) == Members(s) + {entry}
      ensures DimensionsOf(now, z, names + {now[entry].symbol})
    {
      forall x | x in z ensures 0 < x < |now| && now[x].role == DimensionRole
          && now[x].symbol in names + {now[entry].symbol} {
        assert x in Members(z);
        if x != entry { assert x in s; }
      }
      forall d | d in names + {now[entry].symbol} ensures exists x :: x in z && x < |now| && now[x].symbol == d {
        if d in names {
          var x :| x in s && x < |was| && was[x].symbol == d;
          assert x in Members(z);
          assert x in z && now[x].symbol == d;
        } else {
          assert entry in Members(z);
          assert entry in z;
        }
      }
    }

    /** The face entry of a consistent clause: one entry per clause. */
    method FaceEntry(clause: DimClause) returns (id: nat)
      requires Valid() && !failed
      modifies this, symbols, symbols.slots
      ensures Valid() && Grown() && facts == old(facts)
      ensures symbols.slots == old(symbols.slots) || fresh(symbols.slots)
      ensures id != 0 ==> !failed && id < |entries| && entries[id].role == FaceRole && entries[id].clause == clause
      ensures id == 0 ==> failed
    {
      id := 1;
      while id < |entries|
        invariant 0 < id <= |entries| && forall i :: 0 < i < id ==>
                    !(entries[i].role == FaceRole && entries[i].clause == clause)
      {
        if entries[id].role == FaceRole && entries[id].clause == clause { return; }
        id := id + 1;
      }
      var fine, context := DimensionContext(Names(clause));
      if !fine { return 0; }
      id := AddEntry(Entry(FaceRole, 0, clause, Handle(0), 0, context, 0));
    }

    // ---- Judgements -------------------------------------------------------------------------

    /** Starts an instruction. It proceeds only when it is new: an identical earlier one's
        judgement is found instead. */
    method Begin(how: Derivation) returns (new': bool, found: nat)
      requires Valid()
      modifies `failed
      ensures Valid() && (old(failed) ==> failed)
      ensures found != 0 ==> !new' && found < |facts| && facts[found].how == how
      ensures new' ==> !failed && forall i :: 0 < i < |facts| ==> facts[i].how != how
      ensures !new' && found == 0 ==> failed
    {
      if failed { return false, 0; }
      if |how.position| > POSITION_LIMIT {
        failed := true;
        return false, 0;
      }
      found := derivations.Find(DerivationKeys(facts), how);
      if found == 0 {
        forall i | 0 < i < |facts| ensures facts[i].how != how { assert DerivationKeys(facts)[i] == Key(facts[i].how); }
      } else {
        assert DerivationKeys(facts)[found] == Key(facts[found].how);
      }
      new' := found == 0;
    }

    /** Publishes a judgement over a context. */
    method Publish(f: Fact) returns (id: nat)
      requires Valid() && SetOk(entries, lists, f.context)
      requires FactsOk(language, facts + [f])
      requires forall i :: 0 < i < |facts| ==> facts[i].how != f.how
      modifies this`facts, this`failed, derivations, derivations.slots
      ensures Valid() && (old(failed) ==> failed)
      ensures derivations.slots == old(derivations.slots) || fresh(derivations.slots)
      ensures id != 0 ==> !failed && id == |old(facts)| && facts == old(facts) + [f] && facts[id] == f
      ensures id == 0 ==> failed && facts == old(facts)
    {
      if failed { return 0; }
      if |facts| >= STORE_LIMIT {
        failed := true;
        return 0;
      }
      ghost var was := facts;
      id := |facts|;
      assert DerivationKeys(facts + [f]) == DerivationKeys(facts) + [Key(f.how)];
      assert (DerivationKeys(facts) + [Key(f.how)])[..id] == DerivationKeys(facts);
      derivations.Add(DerivationKeys(facts + [f]), id + 1);
      facts := facts + [f];
      if savedFacts > 0 { assert facts[..savedFacts] == was[..savedFacts]; }
    }

    /** A judgement of an instruction outside this model: anything but a system, over any
        context. */
    method Record(f: Fact) returns (id: nat)
      requires Valid() && SetOk(entries, lists, f.context) && f.kind != System && f.pending == {}
      requires f.how.rule.OtherRule?
      modifies this`facts, this`failed, derivations, derivations.slots
      ensures Valid() && (old(failed) ==> failed)
      ensures derivations.slots == old(derivations.slots) || fresh(derivations.slots)
      ensures id != 0 ==> id < |facts| && facts[id].how == f.how && old(facts) <= facts
    {
      var new', found := Begin(f.how);
      if !new' { return found; }
      assert (facts + [f])[|facts|] == f;
      FactsAppend(language, facts, f);
      id := Publish(f);
    }

    // ---- Checkpoint and rollback ---------------------------------------------------------------

    method Checkpoint()
      requires Valid()
      modifies `savedFacts, `savedEntries, `savedLists
      ensures Valid() && savedFacts == |facts| && savedEntries == |entries| && savedLists == |lists|
    {
      savedFacts, savedEntries, savedLists := |facts|, |entries|, |lists|;
      assert entries[..savedEntries] == entries && lists[..savedLists] == lists && facts[..savedFacts] == facts;
    }

    /** A rollback, or a commit, drops what the store gained since the checkpoint. What
        stays is in order: no judgement, entry or set refers to what is dropped, and both
        tables still find what is live among the stale ids. */
    method Truncate()
      requires Valid() && savedFacts > 0
      modifies `facts, `entries, `lists, `savedFacts
      ensures Valid() && savedFacts == 0
      ensures facts == old(facts[..savedFacts]) && entries == old(entries[..savedEntries])
      ensures lists == old(lists[..savedLists])
    {
      derivations.Truncated(DerivationKeys(facts), savedFacts);
      symbols.Truncated(SymbolKeys(entries), savedEntries);
      assert DerivationKeys(facts)[..savedFacts] == DerivationKeys(facts[..savedFacts]);
      assert SymbolKeys(entries)[..savedEntries] == SymbolKeys(entries[..savedEntries]);
      facts := facts[..savedFacts];
      entries := entries[..savedEntries];
      lists := lists[..savedLists];
      savedFacts := 0;
    }

    method Rollback()
      requires Valid()
      modifies `facts, `entries, `lists, `savedFacts, `failed
      ensures Valid()
      ensures old(savedFacts) == 0 ==> unchanged(this)
      ensures old(savedFacts) > 0 ==> !failed && savedFacts == 0 && facts == old(facts[..savedFacts])
                                      && entries == old(entries[..savedEntries]) && lists == old(lists[..savedLists])
    {
      if savedFacts == 0 { return; }
      Truncate();
      failed := false;
    }
  }
}
