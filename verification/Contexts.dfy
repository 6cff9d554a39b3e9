/** instructions.c: contexts of the judgement store, on values. An entry records the
    context that it needs; a context is a strictly increasing list of entries, closed
    under what they need. */
module Contexts {
  import opened Counting
  import opened Lattice
  import opened Formulas
  import opened Systems

  datatype Role = TermRole | LevelRole | DimensionRole | FaceRole

  /** `symbol` is a term symbol or a dimension index, and `clause` a face entry's; a term
      entry's `source` is the judgement that its type is a type. */
  datatype Entry = Entry(role: Role, symbol: nat, clause: DimClause, typ: Term, source: nat, context: nat, scope: nat)

  function Members(s: seq<nat>): set<nat> { set x | x in s }

  ghost predicate Sorted(s: seq<nat>) { forall i, j :: 0 <= i < j < |s| ==> s[i] < s[j] }

  /** What an entry needs. */
  function Needs(entries: seq<Entry>, lists: seq<seq<nat>>, x: nat): set<nat> {
    if x < |entries| && entries[x].context < |lists| then Members(lists[entries[x].context]) else {}
  }

  ghost predicate ContextOk(entries: seq<Entry>, lists: seq<seq<nat>>, s: seq<nat>) {
    Sorted(s) && forall x :: x in s ==> 0 < x < |entries| && Needs(entries, lists, x) <= Members(s)
  }

  ghost predicate SetOk(entries: seq<Entry>, lists: seq<seq<nat>>, id: nat) {
    id < |lists| && ContextOk(entries, lists, lists[id])
  }

  /** The dimension entries of some names, and no other entry. */
  ghost predicate DimensionsOf(entries: seq<Entry>, s: seq<nat>, names: set<nat>) {
    && (forall x :: x in s ==> 0 < x < |entries| && entries[x].role == DimensionRole && entries[x].symbol in names)
    && (forall d :: d in names ==> exists x :: x in s && x < |entries| && entries[x].symbol == d)
  }

  ghost predicate EntryOk(entries: seq<Entry>, lists: seq<seq<nat>>, i: nat)
    requires i < |entries|
  {
    var e := entries[i];
    && SetOk(entries, lists, e.context) && (forall x :: x in lists[e.context] ==> x < i)
    && SetOk(entries, lists, e.scope) && Members(lists[e.scope]) == Members(lists[e.context]) + {i}
    && match e.role
       case TermRole => e.symbol > 0
       case LevelRole => e.symbol > 0 && lists[e.context] == []
       case DimensionRole => e.symbol < DIMENSIONS && lists[e.context] == []
       case FaceRole => DimensionsOf(entries, lists[e.context], Names(e.clause))
  }

  predicate Named(e: Entry) { e.role == TermRole || e.role == LevelRole }

  /** Two entries that would be ambiguous: with one symbol, one index or one clause. */
  predicate Clash(a: Entry, b: Entry) {
    || (Named(a) && Named(b) && a.symbol == b.symbol)
    || (a.role == DimensionRole && b.role == DimensionRole && a.symbol == b.symbol)
    || (a.role == FaceRole && b.role == FaceRole && a.clause == b.clause)
  }

  ghost predicate Unambiguous(entries: seq<Entry>) {
    forall i, j :: 0 < i < j < |entries| ==> !Clash(entries[i], entries[j])
  }

  ghost predicate StoreOk(entries: seq<Entry>, lists: seq<seq<nat>>) {
    && |entries| > 0 && |lists| > 0 && lists[0] == []
    && (forall i :: 0 < i < |entries| ==> EntryOk(entries, lists, i))
    && Unambiguous(entries)
  }

  /** A context holds at most one dimension entry of each index. */
  lemma OneDimension(entries: seq<Entry>, lists: seq<seq<nat>>, s: seq<nat>, x: nat, y: nat)
    requires StoreOk(entries, lists) && ContextOk(entries, lists, s) && x in s && y in s
    requires entries[x].role == entries[y].role == DimensionRole && entries[x].symbol == entries[y].symbol
    ensures x == y
  {
    assert Clash(entries[x], entries[y]);
  }

  // ---- Sorted lists -----------------------------------------------------------------------

  lemma SortedAppend(z: seq<nat>, x: nat)
    requires Sorted(z) && (z == [] || z[|z| - 1] < x)
    ensures Sorted(z + [x]) && Members(z + [x]) == Members(z) + {x}
  {
  }

  lemma MembersTaken(x: seq<nat>, i: nat)
    requires i < |x|
    ensures Members(x[..i + 1]) == Members(x[..i]) + {x[i]} && x[i] in Members(x)
  {
    assert x[..i + 1] == x[..i] + [x[i]];
  }

  /** A sorted list that contains another and is as long has the same members. */
  lemma SameMembers(s: seq<nat>, z: seq<nat>)
    requires Sorted(s) && Sorted(z) && Members(s) <= Members(z) && |s| == |z|
    ensures Members(s) == Members(z)
  {
    DistinctSize(s);
    DistinctSize(z);
    SubsetSize(Members(s), Members(z));
  }

  // ---- Closure ------------------------------------------------------------------------------

  lemma UnionOk(entries: seq<Entry>, lists: seq<seq<nat>>, s: seq<nat>, t: seq<nat>, z: seq<nat>)
    requires ContextOk(entries, lists, s) && ContextOk(entries, lists, t)
    requires Sorted(z) && Members(z) == Members(s) + Members(t)
    ensures ContextOk(entries, lists, z)
  {
    forall x | x in z ensures 0 < x < |entries| && Needs(entries, lists, x) <= Members(z) {
      assert x in Members(z);
      assert x in Members(s) || x in Members(t);
    }
  }

  /** What is left of a context is one, when nothing left needs what was removed. */
  lemma DifferenceOk(entries: seq<Entry>, lists: seq<seq<nat>>, s: seq<nat>, gone: set<nat>, z: seq<nat>)
    requires ContextOk(entries, lists, s) && Sorted(z) && Members(z) == Members(s) - gone
    requires forall x :: x in Members(s) - gone ==> Needs(entries, lists, x) !! gone
    ensures ContextOk(entries, lists, z)
  {
    forall x | x in z ensures 0 < x < |entries| && Needs(entries, lists, x) <= Members(z) {
      assert x in Members(z);
      assert x in s;
    }
  }

  /** Two dimension entries with one index meet. */
  ghost predicate Conflict(entries: seq<Entry>, s: set<nat>) {
    exists i, j :: i in s && j in s && Captures(entries, i, j)
  }

  predicate Captures(entries: seq<Entry>, i: nat, j: nat) {
    && i != j && i < |entries| && j < |entries|
    && entries[i].role == entries[j].role == DimensionRole && entries[i].symbol == entries[j].symbol
  }

  /** They never do: one index has one live entry. */
  lemma NoConflict(entries: seq<Entry>, s: set<nat>)
    requires Unambiguous(entries) && 0 !in s
    ensures !Conflict(entries, s)
  {
    forall i, j | i in s && j in s && Captures(entries, i, j) ensures false {
      assert Clash(entries[i], entries[j]) && Clash(entries[j], entries[i]);
    }
  }

  // ---- Growth -------------------------------------------------------------------------------

  lemma ContextGrows(entries: seq<Entry>, lists: seq<seq<nat>>, entries': seq<Entry>, lists': seq<seq<nat>>,
                     s: seq<nat>)
    requires StoreOk(entries, lists) && entries <= entries' && lists <= lists' && ContextOk(entries, lists, s)
    ensures ContextOk(entries', lists', s)
  {
    forall x | x in s ensures 0 < x < |entries'| && Needs(entries', lists', x) <= Members(s) {
      assert EntryOk(entries, lists, x);
    }
  }

  lemma EntryGrows(entries: seq<Entry>, lists: seq<seq<nat>>, entries': seq<Entry>, lists': seq<seq<nat>>, i: nat)
    requires StoreOk(entries, lists) && entries <= entries' && lists <= lists' && 0 < i < |entries|
    ensures EntryOk(entries', lists', i)
  {
    assert EntryOk(entries, lists, i);
    ContextGrows(entries, lists, entries', lists', lists[entries[i].context]);
    ContextGrows(entries, lists, entries', lists', lists[entries[i].scope]);
    if entries[i].role == FaceRole {
      var s, c := lists[entries[i].context], entries[i].clause;
      forall d | d in Names(c) ensures exists x :: x in s && x < |entries'| && entries'[x].symbol == d {
        var x :| x in s && x < |entries| && entries[x].symbol == d;
        assert entries'[x] == entries[x];
      }
    }
  }

  /** Publishing a set changes nothing before it. */
  lemma ListPublished(entries: seq<Entry>, lists: seq<seq<nat>>, lists': seq<seq<nat>>)
    requires StoreOk(entries, lists) && lists <= lists'
    ensures StoreOk(entries, lists')
  {
    forall i | 0 < i < |entries| ensures EntryOk(entries, lists', i) {
      EntryGrows(entries, lists, entries, lists', i);
    }
  }

  /** A new entry whose scope is its context and itself. */
  lemma EntryPublished(entries: seq<Entry>, lists: seq<seq<nat>>, e: Entry)
    requires StoreOk(entries, lists) && SetOk(entries, lists, e.context)
    requires e.scope < |lists| && Sorted(lists[e.scope])
    requires Members(lists[e.scope]) == Members(lists[e.context]) + {|entries|}
    requires match e.role
             case TermRole => e.symbol > 0
             case LevelRole => e.symbol > 0 && lists[e.context] == []
             case DimensionRole => e.symbol < DIMENSIONS && lists[e.context] == []
             case FaceRole => DimensionsOf(entries, lists[e.context], Names(e.clause))
    requires forall i :: 0 < i < |entries| ==> !Clash(entries[i], e)
    ensures StoreOk(entries + [e], lists)
  {
    var entries' := entries + [e];
    var new' := |entries|;
    ContextGrows(entries, lists, entries', lists, lists[e.context]);
    forall x | x in lists[e.scope] ensures 0 < x < |entries'| && Needs(entries', lists, x) <= Members(lists[e.scope]) {
      assert x in Members(lists[e.scope]);
      if x != new' { assert x in Members(lists[e.context]); }
    }
    assert EntryOk(entries', lists, new') by {
      if e.role == FaceRole { NamesGrow(entries, entries', lists[e.context], e.clause); }
    }
    forall i | 0 < i < |entries'| ensures EntryOk(entries', lists, i) {
      if i < |entries| { EntryGrows(entries, lists, entries', lists, i); }
    }
  }

  lemma NamesGrow(entries: seq<Entry>, entries': seq<Entry>, s: seq<nat>, c: DimClause)
    requires DimensionsOf(entries, s, Names(c)) && entries <= entries'
    ensures DimensionsOf(entries', s, Names(c))
  {
    forall d | d in Names(c) ensures exists x :: x in s && x < |entries'| && entries'[x].symbol == d {
      var x :| x in s && x < |entries| && entries[x].symbol == d;
      assert entries'[x] == entries[x];
    }
  }

  // ---- Discharge ----------------------------------------------------------------------------

  /** The first of the removed entries that stops a discharge at `x`: one that `x`
      needs, or another dimension of its index, before `x` itself is met. */
  ghost predicate BlockedBy(entries: seq<Entry>, lists: seq<seq<nat>>, removed: seq<nat>, x: nat, r: nat)
    requires r < |removed| && x < |entries| && removed[r] < |entries|
  {
    && x !in removed[..r + 1]
    && (removed[r] in Needs(entries, lists, x)
        || (entries[x].role == entries[removed[r]].role == DimensionRole
            && entries[x].symbol == entries[removed[r]].symbol))
  }

  ghost predicate Blocked(entries: seq<Entry>, lists: seq<seq<nat>>, removed: seq<nat>, x: nat)
    requires x < |entries| && forall r :: 0 <= r < |removed| ==> removed[r] < |entries|
  {
    exists r: nat :: r < |removed| && BlockedBy(entries, lists, removed, x, r)
  }

  /** Entries are unambiguous, so only a need stops a discharge: the capture that the
      kernel tests for never happens. */
  lemma OnlyNeedsBlock(entries: seq<Entry>, lists: seq<seq<nat>>, removed: seq<nat>, x: nat, r: nat)
    requires StoreOk(entries, lists) && 0 < x < |entries| && r < |removed| && 0 < removed[r] < |entries|
    requires BlockedBy(entries, lists, removed, x, r)
    ensures removed[r] in Needs(entries, lists, x)
  {
    if entries[x].role == entries[removed[r]].role == DimensionRole && entries[x].symbol == entries[removed[r]].symbol {
      assert Clash(entries[x], entries[removed[r]]);
      assert removed[r] in removed[..r + 1];
    }
  }

  /** A face entry that a clause implies. */
  predicate Implied(e: Entry, clause: DimClause) {
    e.role == FaceRole && e.clause.positive <= clause.positive && e.clause.negative <= clause.negative
  }

  function ImpliedFaces(entries: seq<Entry>, s: set<nat>, clause: DimClause): set<nat> {
    set x | x in s && x < |entries| && Implied(entries[x], clause)
  }

  /** A context's entries that stay on a face. */
  function StaysOn(entries: seq<Entry>, s: set<nat>, clause: DimClause): set<nat> {
    s - ImpliedFaces(entries, s, clause)
  }

  /** By points: what leaves a context on a face is its face entries that hold wherever the
      face does. */
  lemma StaysOnHolds(entries: seq<Entry>, s: set<nat>, clause: DimClause, x: nat)
    requires x in s && x < |entries| && clause.positive !! clause.negative
    ensures x !in StaysOn(entries, s, clause) <==>
              && entries[x].role == FaceRole
              && forall v :: Admits(Face, v) && ClauseHolds(clause, v) ==> ClauseHolds(entries[x].clause, v)
  {
    var c := entries[x].clause;
    GenericDecides(c, clause);
    forall v | Below(c, clause) && ClauseHolds(clause, v) ensures ClauseHolds(c, v) {
      BelowIsImplication(c, clause, v);
    }
  }

  lemma StaysOnGrows(entries: seq<Entry>, lists: seq<seq<nat>>, entries': seq<Entry>, s: seq<nat>, clause: DimClause)
    requires entries <= entries' && ContextOk(entries, lists, s)
    ensures StaysOn(entries', Members(s), clause) == StaysOn(entries, Members(s), clause)
  {
    forall x | x in Members(s) ensures x < |entries| { assert x in s; }
    assert ImpliedFaces(entries', Members(s), clause) == ImpliedFaces(entries, Members(s), clause);
  }

  /** Set `out` is a context on a face. */
  ghost predicate OnFaceIs(entries: seq<Entry>, lists: seq<seq<nat>>, s: seq<nat>, clause: DimClause, out: nat) {
    SetOk(entries, lists, out) && Members(lists[out]) == StaysOn(entries, Members(s), clause)
  }

  lemma OnFaceGrows(entries: seq<Entry>, lists: seq<seq<nat>>, entries': seq<Entry>, lists': seq<seq<nat>>, s: seq<nat>,
                    clause: DimClause, out: nat)
    requires StoreOk(entries, lists) && entries <= entries' && lists <= lists'
    requires ContextOk(entries, lists, s) && OnFaceIs(entries, lists, s, clause, out)
    ensures OnFaceIs(entries', lists', s, clause, out)
  {
    ContextGrows(entries, lists, entries', lists', lists[out]);
    StaysOnGrows(entries, lists, entries', s, clause);
  }

  /** A context's entries other than the dimension entry of an index. */
  function WithoutDimension(entries: seq<Entry>, s: set<nat>, dimension: nat): set<nat> {
    set x | x in s && !(x < |entries| && entries[x].role == DimensionRole && entries[x].symbol == dimension)
  }

  lemma WithoutGrows(entries: seq<Entry>, entries': seq<Entry>, s: set<nat>, dimension: nat)
    requires entries <= entries' && forall x :: x in s ==> x < |entries|
    ensures WithoutDimension(entries', s, dimension) == WithoutDimension(entries, s, dimension)
  {
  }

  /** An entry that stays on the face needs one of the implied face entries. */
  ghost predicate FaceNeeded(entries: seq<Entry>, lists: seq<seq<nat>>, s: set<nat>, clause: DimClause) {
    exists x, y :: x in s && y in s && y < |entries| && x < |entries|
                   && Implied(entries[y], clause) && !Implied(entries[x], clause) && y in Needs(entries, lists, x)
  }

  /** No face entry is needed by another one, so faces can be discharged in any order. */
  lemma FacesNeedNoFaces(entries: seq<Entry>, lists: seq<seq<nat>>, x: nat, y: nat)
    requires StoreOk(entries, lists) && 0 < x < |entries| && entries[x].role == FaceRole
    requires y in Needs(entries, lists, x)
    ensures y < |entries| && entries[y].role == DimensionRole
  {
    assert EntryOk(entries, lists, x);
  }
}
