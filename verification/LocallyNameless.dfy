/** The locally nameless operations on nameless trees. BOUND is an index that counts the
    term binders above it, OPENED a level that an opened binder stands at, CONTEXT an entry
    of a context. Instantiation replaces the indices that it is given and shifts none;
    abstraction binds a reference as the index of the binders above each occurrence. */
module LocallyNameless {
  import opened Lattice
  import opened Nameless
  import opened FreeNames

  function Leaf(kind: Kind, n: nat): Form { Form(kind, Number(n), Absent, Absent, Absent) }

  predicate IsLeaf(m: Form, kind: Kind) {
    m.Form? && m.kind == kind && m.tag.Number? && m == Leaf(kind, m.tag.number)
  }

  /** The number of binders above a node's second child. */
  function Into(kind: Kind, d: nat): nat { if TermBinder(kind) then d + 1 else d }

  predicate Reference(m: Form) { IsLeaf(m, OPENED) || IsLeaf(m, CONTEXT) }

  function Instantiate(m: Form, d: nat, values: seq<Form>): Form {
    if m == Absent || m.kind == VAR then m
    else if IsLeaf(m, BOUND) then (if d <= m.tag.number < d + |values| then values[m.tag.number - d] else m)
    else Form(m.kind, m.tag, Instantiate(m.a, d, values), Instantiate(m.b, Into(m.kind, d), values),
              Instantiate(m.c, d, values))
  }

  function Abstract(m: Form, d: nat, reference: Form): Form {
    if m == Absent || m.kind == VAR then m
    else if m == reference then Leaf(BOUND, d)
    else Form(m.kind, m.tag, Abstract(m.a, d, reference), Abstract(m.b, Into(m.kind, d), reference),
              Abstract(m.c, d, reference))
  }

  function Open(m: Form, level: nat): Form { Instantiate(m, 0, [Leaf(OPENED, level)]) }

  function Close(m: Form, level: nat): Form { Abstract(m, 0, Leaf(OPENED, level)) }

  // ---- What occurs in a tree ---------------------------------------------------------------

  function Max(a: nat, b: nat): nat { if a < b then b else a }

  /** How far an index reaches out of a node's second child. */
  function Out(kind: Kind, n: nat): nat { if TermBinder(kind) && n > 0 then n - 1 else n }

  /** One more than the greatest index that reaches out of the tree. */
  function Loose(m: Form): nat {
    if m == Absent || m.kind == VAR then 0
    else if IsLeaf(m, BOUND) then m.tag.number + 1
    else Max(Loose(m.a), Max(Out(m.kind, Loose(m.b)), Loose(m.c)))
  }

  /** One more than the greatest opened level. */
  function Levels(m: Form): nat {
    if m == Absent || m.kind == VAR then 0
    else if IsLeaf(m, OPENED) then m.tag.number + 1
    else Max(Levels(m.a), Max(Levels(m.b), Levels(m.c)))
  }

  /** The context entries that occur. */
  function Entries(m: Form): set<nat> {
    if m == Absent || m.kind == VAR then {}
    else if IsLeaf(m, CONTEXT) then {m.tag.number}
    else Entries(m.a) + Entries(m.b) + Entries(m.c)
  }

  predicate Contains(m: Form, reference: Form) {
    m != Absent && m.kind != VAR
    && (m == reference || Contains(m.a, reference) || Contains(m.b, reference) || Contains(m.c, reference))
  }

  /** Whether the index of the binder just above `d` others occurs. */
  predicate IndexOccurs(m: Form, d: nat) {
    m != Absent && m.kind != VAR
    && if IsLeaf(m, BOUND) then m.tag.number == d
       else IndexOccurs(m.a, d) || IndexOccurs(m.b, Into(m.kind, d)) || IndexOccurs(m.c, d)
  }

  /** Which of `count` values instantiation puts somewhere. */
  function Inserted(m: Form, d: nat, count: nat): (s: set<nat>)
    ensures forall i :: i in s ==> i < count
  {
    if m == Absent || m.kind == VAR then {}
    else if IsLeaf(m, BOUND) then (if d <= m.tag.number < d + count then {m.tag.number - d} else {})
    else Inserted(m.a, d, count) + Inserted(m.b, Into(m.kind, d), count) + Inserted(m.c, d, count)
  }

  /** Functions and their types, and no other kind, have one binder over their second child:
      an index there counts it. */
  lemma IndexUnder(kind: Kind, n: nat, d: nat, values: seq<Form>, level: nat)
    requires kind !in {VAR, BOUND, OPENED}
    ensures var i := Leaf(BOUND, n);
            var given := if d <= n < d + |values| then values[n - d] else i;
            var under := if d + 1 <= n < d + 1 + |values| then values[n - (d + 1)] else i;
            Instantiate(Form(kind, NoTag, i, i, i), d, values)
            == Form(kind, NoTag, given, if kind in {PI, LAM} then under else given, given)
    ensures Loose(Form(kind, NoTag, Absent, Leaf(BOUND, n), Absent)) == if kind in {PI, LAM} then n else n + 1
    ensures var o := Leaf(OPENED, level);
            Abstract(Form(kind, NoTag, o, o, o), d, o)
            == Form(kind, NoTag, Leaf(BOUND, d), Leaf(BOUND, if kind in {PI, LAM} then d + 1 else d), Leaf(BOUND, d))
  {
  }

  lemma {:induction false} InsertedOccurs(m: Form, d: nat, count: nat, i: nat)
    requires i < count
    ensures i in Inserted(m, d, count) <==> IndexOccurs(m, d + i)
  {
    if m != Absent && m.kind != VAR && !IsLeaf(m, BOUND) {
      InsertedOccurs(m.a, d, count, i);
      InsertedOccurs(m.b, Into(m.kind, d), count, i);
      InsertedOccurs(m.c, d, count, i);
    }
  }

  lemma {:induction false} LooseCovers(m: Form, d: nat)
    ensures Loose(m) <= d ==> !IndexOccurs(m, d)
  {
    if m != Absent && m.kind != VAR && !IsLeaf(m, BOUND) {
      LooseCovers(m.a, d);
      LooseCovers(m.b, Into(m.kind, d));
      LooseCovers(m.c, d);
    }
  }

  lemma {:induction false} LevelsCover(m: Form, level: nat)
    ensures Levels(m) <= level ==> !Contains(m, Leaf(OPENED, level))
  {
    if m != Absent && m.kind != VAR && !IsLeaf(m, OPENED) {
      LevelsCover(m.a, level);
      LevelsCover(m.b, level);
      LevelsCover(m.c, level);
    }
  }

  lemma {:induction false} EntriesCover(m: Form, entry: nat)
    ensures entry !in Entries(m) ==> !Contains(m, Leaf(CONTEXT, entry))
  {
    if m != Absent && m.kind != VAR && !IsLeaf(m, CONTEXT) {
      EntriesCover(m.a, entry);
      EntriesCover(m.b, entry);
      EntriesCover(m.c, entry);
    }
  }

  // ---- Nothing to change -------------------------------------------------------------------

  /** A tree whose indices all stay inside is not changed, however large. */
  lemma {:induction false} InstantiateClosed(m: Form, d: nat, values: seq<Form>)
    requires Loose(m) <= d
    ensures Instantiate(m, d, values) == m
  {
    if m != Absent && m.kind != VAR && !IsLeaf(m, BOUND) {
      InstantiateClosed(m.a, d, values);
      InstantiateClosed(m.b, Into(m.kind, d), values);
      InstantiateClosed(m.c, d, values);
    }
  }

  lemma {:induction false} InstantiateNothing(m: Form, d: nat)
    ensures Instantiate(m, d, []) == m
  {
    if m != Absent && m.kind != VAR && !IsLeaf(m, BOUND) {
      InstantiateNothing(m.a, d);
      InstantiateNothing(m.b, Into(m.kind, d));
      InstantiateNothing(m.c, d);
    }
  }

  lemma {:induction false} AbstractAbsent(m: Form, d: nat, reference: Form)
    requires !Contains(m, reference)
    ensures Abstract(m, d, reference) == m
  {
    if m != Absent && m.kind != VAR {
      AbstractAbsent(m.a, d, reference);
      AbstractAbsent(m.b, Into(m.kind, d), reference);
      AbstractAbsent(m.c, d, reference);
    }
  }

  // ---- The laws ----------------------------------------------------------------------------

  /** Abstracting what was put in gives the tree back just when it was not there before. */
  lemma {:induction false} AbstractInstantiated(m: Form, d: nat, reference: Form)
    requires Reference(reference)
    ensures Abstract(Instantiate(m, d, [reference]), d, reference) == m <==> !Contains(m, reference)
  {
    if m != Absent && m.kind != VAR && !IsLeaf(m, BOUND) {
      AbstractInstantiated(m.a, d, reference);
      AbstractInstantiated(m.b, Into(m.kind, d), reference);
      AbstractInstantiated(m.c, d, reference);
    }
  }

  /** Putting back what was abstracted gives the tree back just when the index of the new
      binder was not loose in it. */
  lemma {:induction false} InstantiateAbstracted(m: Form, d: nat, reference: Form)
    requires Reference(reference)
    ensures Instantiate(Abstract(m, d, reference), d, [reference]) == m <==> !IndexOccurs(m, d)
  {
    if m != Absent && m.kind != VAR && !IsLeaf(m, BOUND) && m != reference {
      InstantiateAbstracted(m.a, d, reference);
      InstantiateAbstracted(m.b, Into(m.kind, d), reference);
      InstantiateAbstracted(m.c, d, reference);
    }
  }

  /** Closing after opening is the identity on any tree, at a level not below those it
      has. */
  lemma CloseOpen(m: Form, level: nat)
    requires Levels(m) <= level
    ensures Close(Open(m, level), level) == m
  {
    LevelsCover(m, level);
    AbstractInstantiated(m, 0, Leaf(OPENED, level));
  }

  /** Opening after closing is the identity on a locally closed tree. */
  lemma OpenClose(m: Form, level: nat)
    requires Loose(m) == 0
    ensures Open(Close(m, level), level) == m
  {
    LooseCovers(m, 0);
    InstantiateAbstracted(m, 0, Leaf(OPENED, level));
  }

  /** A leaf replaced wherever it occurs. */
  function LeafReplaced(m: Form, leaf: Form, v: Form): Form {
    if m == Absent || m.kind == VAR then m
    else if m == leaf then v
    else Form(m.kind, m.tag, LeafReplaced(m.a, leaf, v), LeafReplaced(m.b, leaf, v), LeafReplaced(m.c, leaf, v))
  }

  /** Instantiating is opening, at a level that the tree does not have, and then replacing
      the opened leaf. */
  lemma {:induction false} InstantiateByOpening(m: Form, d: nat, level: nat, v: Form)
    requires !Contains(m, Leaf(OPENED, level))
    ensures Instantiate(m, d, [v]) == LeafReplaced(Instantiate(m, d, [Leaf(OPENED, level)]), Leaf(OPENED, level), v)
  {
    if m != Absent && m.kind != VAR && !IsLeaf(m, BOUND) {
      InstantiateByOpening(m.a, d, level, v);
      InstantiateByOpening(m.b, Into(m.kind, d), level, v);
      InstantiateByOpening(m.c, d, level, v);
    }
  }

  /** A locally closed value. */
  predicate LocallyClosed(v: Form) { v != Absent && Loose(v) == 0 }

  /** Only an index is replaced by something of another kind. */
  lemma InstantiateKeepsNode(m: Form, d: nat, values: seq<Form>)
    requires m != Absent && m.kind != VAR && !IsLeaf(m, BOUND)
    requires forall i :: 0 <= i < |values| ==> values[i] != Absent
    ensures var n := Instantiate(m, d, values);
            n != Absent && n.kind == m.kind && n.tag == m.tag && !IsLeaf(n, BOUND)
  {
  }

  /** A telescope instantiated at once is its binders instantiated one by one, the outer
      ones first, for locally closed values. */
  lemma {:induction false} TelescopeOneByOne(m: Form, d: nat, values: seq<Form>)
    requires values != [] && forall i :: 0 <= i < |values| ==> LocallyClosed(values[i])
    ensures Instantiate(m, d, values) == Instantiate(Instantiate(m, d + 1, values[1..]), d, [values[0]])
  {
    if m == Absent || m.kind == VAR {
    } else if IsLeaf(m, BOUND) {
      var n := m.tag.number;
      if d < n < d + |values| {
        assert values[1..][n - d - 1] == values[n - d];
        InstantiateClosed(values[n - d], d, [values[0]]);
      }
    } else {
      InstantiateKeepsNode(m, d + 1, values[1..]);
      TelescopeOneByOne(m.a, d, values);
      TelescopeOneByOne(m.b, Into(m.kind, d), values);
      TelescopeOneByOne(m.c, d, values);
    }
  }

  /** Instantiating with locally closed values leaves no index that it replaced. */
  lemma {:induction false} InstantiateLoose(m: Form, d: nat, values: seq<Form>)
    requires forall i :: 0 <= i < |values| ==> LocallyClosed(values[i])
    requires Loose(m) <= d + |values|
    ensures Loose(Instantiate(m, d, values)) <= d
  {
    if m != Absent && m.kind != VAR && !IsLeaf(m, BOUND) {
      InstantiateKeepsNode(m, d, values);
      InstantiateLoose(m.a, d, values);
      InstantiateLoose(m.b, Into(m.kind, d), values);
      InstantiateLoose(m.c, d, values);
    }
  }

  // ---- Trees with the same indices ---------------------------------------------------------

  /** Trees that differ in names and formulas only. */
  ghost predicate SameIndices(m: Form, n: Form) {
    if m == Absent || n == Absent then m == n
    else
      && m.kind == n.kind
      && (m.kind != VAR ==>
            && (m.tag.Number? || n.tag.Number? ==> m.tag == n.tag)
            && SameIndices(m.a, n.a) && SameIndices(m.b, n.b) && SameIndices(m.c, n.c))
  }

  lemma SameLeaf(m: Form, n: Form, kind: Kind)
    requires SameIndices(m, n) && kind != VAR
    ensures IsLeaf(m, kind) <==> IsLeaf(n, kind)
    ensures IsLeaf(m, kind) ==> m == n
  {
  }

  lemma {:induction false} SameLoose(m: Form, n: Form)
    requires SameIndices(m, n)
    ensures Loose(m) == Loose(n)
  {
    if m != Absent && m.kind != VAR {
      SameLeaf(m, n, BOUND);
      SameLoose(m.a, n.a);
      SameLoose(m.b, n.b);
      SameLoose(m.c, n.c);
    }
  }

  lemma {:induction false} SameLevels(m: Form, n: Form)
    requires SameIndices(m, n)
    ensures Levels(m) == Levels(n)
  {
    if m != Absent && m.kind != VAR {
      SameLeaf(m, n, OPENED);
      SameLevels(m.a, n.a);
      SameLevels(m.b, n.b);
      SameLevels(m.c, n.c);
    }
  }

  lemma {:induction false} SameEntries(m: Form, n: Form)
    requires SameIndices(m, n)
    ensures Entries(m) == Entries(n)
  {
    if m != Absent && m.kind != VAR {
      SameLeaf(m, n, CONTEXT);
      SameEntries(m.a, n.a);
      SameEntries(m.b, n.b);
      SameEntries(m.c, n.c);
    }
  }

  lemma {:induction false} SameOccurs(m: Form, n: Form, d: nat)
    requires SameIndices(m, n)
    ensures IndexOccurs(m, d) == IndexOccurs(n, d)
  {
    if m != Absent && m.kind != VAR {
      SameLeaf(m, n, BOUND);
      SameOccurs(m.a, n.a, d);
      SameOccurs(m.b, n.b, Into(m.kind, d));
      SameOccurs(m.c, n.c, d);
    }
  }

  lemma SameInserted(m: Form, n: Form, d: nat, count: nat)
    requires SameIndices(m, n)
    ensures Inserted(m, d, count) == Inserted(n, d, count)
  {
    forall i: nat | i < count ensures i in Inserted(m, d, count) <==> i in Inserted(n, d, count) {
      InsertedOccurs(m, d, count, i);
      InsertedOccurs(n, d, count, i);
      SameOccurs(m, n, d + i);
    }
  }

  lemma {:induction false} SameItself(m: Form)
    ensures SameIndices(m, m)
  {
    if m != Absent && m.kind != VAR {
      SameItself(m.a);
      SameItself(m.b);
      SameItself(m.c);
    }
  }

  lemma {:induction false} ClosedTerm(m: Form, k: nat, y: nat)
    ensures SameIndices(m, CloseTerm(m, k, y))
  {
    if m != Absent && m.kind != VAR {
      ClosedTerm(m.a, k, y);
      ClosedTerm(m.b, Into(m.kind, k), y);
      ClosedTerm(m.c, k, y);
    }
  }

  lemma {:induction false} ClosedDim(m: Form, k: nat, e: nat)
    ensures SameIndices(m, CloseDim(m, k, e)) && SameIndices(m, CloseList(m, k, e))
  {
    if m != Absent && m.kind != VAR {
      ClosedDim(m.a, k, e);
      ClosedDim(m.a, k + 1, e);
      ClosedDim(m.b, k, e);
      ClosedDim(m.b, k + 1, e);
      ClosedDim(m.c, k, e);
    }
  }

  lemma {:induction false} ClosedTubes(m: Form, e: nat)
    ensures SameIndices(m, CloseTubes(m, e))
  {
    if m != Absent && m.kind != VAR {
      ClosedDim(m.a, 0, e);
      ClosedTubes(m.b, e);
      SameItself(m.c);
    }
  }

  lemma {:induction false} RenamedDim(m: Form, e: nat, s: set<Clause<Atom>>)
    ensures SameIndices(m, SubstDim(m, e, s)) && SameIndices(m, SubstList(m, e, s, true, false))
  {
    if m != Absent && m.kind != VAR {
      RenamedDim(m.a, e, s);
      RenamedDim(m.b, e, s);
      RenamedDim(m.c, e, s);
      SameItself(m.c);
    }
  }

  /** The indices of a node are those of its children. */
  lemma NodeIndices(kind: Kind, name: nat, tag: Tag, a: Form, b: Form, c: Form)
    requires kind != VAR
    ensures var m := Node(kind, name, tag, a, b, c);
            m.kind == kind && SameIndices(m.a, a) && SameIndices(m.b, b) && SameIndices(m.c, c)
  {
    SameItself(a);
    SameItself(b);
    SameItself(c);
    ClosedDim(a, 0, name);
    ClosedTerm(b, 0, name);
    ClosedDim(b, 0, name);
    ClosedTubes(b, name);
    SameBack(a, BoundFirst(kind, name, a));
    SameBack(b, BoundSecond(kind, name, b));
  }

  lemma {:induction false} SameBack(m: Form, n: Form)
    requires SameIndices(m, n)
    ensures SameIndices(n, m)
  {
    if m != Absent && m.kind != VAR {
      SameBack(m.a, n.a);
      SameBack(m.b, n.b);
      SameBack(m.c, n.c);
    }
  }

  // ---- Under binders of names --------------------------------------------------------------

  /** Instantiation passes the binder of a name that no value has which is put under it. */
  lemma {:induction false} InstantiateUnderTerm(m: Form, k: nat, y: nat, d: nat, values: seq<Form>)
    requires forall i :: i in Inserted(m, d, |values|) ==> y !in FreeTerms(values[i])
    ensures Instantiate(CloseTerm(m, k, y), d, values) == CloseTerm(Instantiate(m, d, values), k, y)
  {
    if m != Absent && m.kind != VAR {
      ClosedTerm(m, k, y);
      SameLeaf(m, CloseTerm(m, k, y), BOUND);
      if IsLeaf(m, BOUND) {
        if d <= m.tag.number < d + |values| {
          assert m.tag.number - d in Inserted(m, d, |values|);
          CloseTermAbsent(values[m.tag.number - d], k, y);
        }
      } else {
        InstantiateUnderTerm(m.a, k, y, d, values);
        InstantiateUnderTerm(m.b, Into(m.kind, k), y, Into(m.kind, d), values);
        InstantiateUnderTerm(m.c, k, y, d, values);
      }
    }
  }

  /** No value that is put somewhere has the dimension. */
  ghost predicate Spared(m: Form, d: nat, values: seq<Form>, e: nat) {
    forall i :: i in Inserted(m, d, |values|) ==> Canonic(values[i]) && !DimFree(values[i], e)
  }

  lemma SparedInside(m: Form, d: nat, values: seq<Form>, e: nat)
    requires Spared(m, d, values, e) && m != Absent && m.kind != VAR
    ensures IsLeaf(m, BOUND) && d <= m.tag.number < d + |values| ==>
              Canonic(values[m.tag.number - d]) && !DimFree(values[m.tag.number - d], e)
    ensures !IsLeaf(m, BOUND) ==>
              Spared(m.a, d, values, e) && Spared(m.b, Into(m.kind, d), values, e) && Spared(m.c, d, values, e)
  {
    if IsLeaf(m, BOUND) && d <= m.tag.number < d + |values| { assert m.tag.number - d in Inserted(m, d, |values|); }
  }

  lemma {:induction false} InstantiateUnderDim(m: Form, k: nat, e: nat, d: nat, values: seq<Form>)
    requires Spared(m, d, values, e)
    ensures Instantiate(CloseDim(m, k, e), d, values) == CloseDim(Instantiate(m, d, values), k, e)
    ensures Instantiate(CloseList(m, k, e), d, values) == CloseList(Instantiate(m, d, values), k, e)
  {
    if m != Absent && m.kind != VAR {
      SparedInside(m, d, values, e);
      ClosedDim(m, k, e);
      SameLeaf(m, CloseDim(m, k, e), BOUND);
      SameLeaf(m, CloseList(m, k, e), BOUND);
      if IsLeaf(m, BOUND) {
        if d <= m.tag.number < d + |values| { CloseDimAbsent(values[m.tag.number - d], k, e); }
      } else {
        InstantiateUnderDim(m.a, k, e, d, values);
        InstantiateUnderDim(m.a, k + 1, e, d, values);
        InstantiateUnderDim(m.b, k, e, Into(m.kind, d), values);
        InstantiateUnderDim(m.b, k + 1, e, Into(m.kind, d), values);
        InstantiateUnderDim(m.c, k, e, d, values);
      }
    }
  }

  lemma {:induction false} InstantiateUnderTubes(m: Form, e: nat, d: nat, values: seq<Form>)
    requires Spared(m, d, values, e)
    ensures Instantiate(CloseTubes(m, e), d, values) == CloseTubes(Instantiate(m, d, values), e)
  {
    if m != Absent && m.kind != VAR {
      SparedInside(m, d, values, e);
      ClosedTubes(m, e);
      SameLeaf(m, CloseTubes(m, e), BOUND);
      if IsLeaf(m, BOUND) {
        if d <= m.tag.number < d + |values| { CloseDimAbsent(values[m.tag.number - d], 0, e); }
      } else {
        InstantiateUnderDim(m.a, 0, e, d, values);
        InstantiateUnderTubes(m.b, e, Into(m.kind, d), values);
      }
    }
  }

  /** No binder of a name stands in the way of abstraction. */
  lemma {:induction false} AbstractUnderTerm(m: Form, k: nat, y: nat, d: nat, reference: Form)
    requires Reference(reference)
    ensures Abstract(CloseTerm(m, k, y), d, reference) == CloseTerm(Abstract(m, d, reference), k, y)
  {
    if m != Absent && m.kind != VAR {
      ClosedTerm(m, k, y);
      SameLeaf(m, CloseTerm(m, k, y), reference.kind);
      AbstractUnderTerm(m.a, k, y, d, reference);
      AbstractUnderTerm(m.b, Into(m.kind, k), y, Into(m.kind, d), reference);
      AbstractUnderTerm(m.c, k, y, d, reference);
    }
  }

  lemma {:induction false} AbstractUnderDim(m: Form, k: nat, e: nat, d: nat, reference: Form)
    requires Reference(reference)
    ensures Abstract(CloseDim(m, k, e), d, reference) == CloseDim(Abstract(m, d, reference), k, e)
    ensures Abstract(CloseList(m, k, e), d, reference) == CloseList(Abstract(m, d, reference), k, e)
  {
    if m != Absent && m.kind != VAR {
      ClosedDim(m, k, e);
      SameLeaf(m, CloseDim(m, k, e), reference.kind);
      SameLeaf(m, CloseList(m, k, e), reference.kind);
      AbstractUnderDim(m.a, k, e, d, reference);
      AbstractUnderDim(m.a, k + 1, e, d, reference);
      AbstractUnderDim(m.b, k, e, Into(m.kind, d), reference);
      AbstractUnderDim(m.b, k + 1, e, Into(m.kind, d), reference);
      AbstractUnderDim(m.c, k, e, d, reference);
    }
  }

  lemma {:induction false} AbstractUnderTubes(m: Form, e: nat, d: nat, reference: Form)
    requires Reference(reference)
    ensures Abstract(CloseTubes(m, e), d, reference) == CloseTubes(Abstract(m, d, reference), e)
  {
    if m != Absent && m.kind != VAR {
      ClosedTubes(m, e);
      SameLeaf(m, CloseTubes(m, e), reference.kind);
      AbstractUnderDim(m.a, 0, e, d, reference);
      AbstractUnderTubes(m.b, e, Into(m.kind, d), reference);
    }
  }

  // ---- A node ------------------------------------------------------------------------------

  lemma InstantiateFirst(kind: Kind, name: nat, a: Form, d: nat, values: seq<Form>)
    requires BindsFirst(kind) ==> Spared(a, d, values, name)
    ensures Instantiate(BoundFirst(kind, name, a), d, values) == BoundFirst(kind, name, Instantiate(a, d, values))
  {
    if BindsFirst(kind) { InstantiateUnderDim(a, 0, name, d, values); }
  }

  lemma InstantiateSecond(kind: Kind, name: nat, b: Form, d: nat, values: seq<Form>)
    requires BindsTubes(kind) || BindsSecond(kind) ==> Spared(b, d, values, name)
    requires TermBinder(kind) ==> forall i :: i in Inserted(b, d + 1, |values|) ==> name !in FreeTerms(values[i])
    ensures Instantiate(BoundSecond(kind, name, b), Into(kind, d), values)
            == BoundSecond(kind, name, Instantiate(b, Into(kind, d), values))
  {
    if TermBinder(kind) {
      InstantiateUnderTerm(b, 0, name, d + 1, values);
    } else if BindsTubes(kind) {
      InstantiateUnderTubes(b, name, d, values);
    } else if BindsSecond(kind) {
      InstantiateUnderDim(b, 0, name, d, values);
    }
  }

  lemma AbstractFirst(kind: Kind, name: nat, a: Form, d: nat, reference: Form)
    requires Reference(reference)
    ensures Abstract(BoundFirst(kind, name, a), d, reference) == BoundFirst(kind, name, Abstract(a, d, reference))
  {
    if BindsFirst(kind) { AbstractUnderDim(a, 0, name, d, reference); }
  }

  lemma AbstractSecond(kind: Kind, name: nat, b: Form, d: nat, reference: Form)
    requires Reference(reference)
    ensures Abstract(BoundSecond(kind, name, b), Into(kind, d), reference)
            == BoundSecond(kind, name, Abstract(b, Into(kind, d), reference))
  {
    if TermBinder(kind) {
      AbstractUnderTerm(b, 0, name, d + 1, reference);
    } else if BindsTubes(kind) {
      AbstractUnderTubes(b, name, d, reference);
    } else if BindsSecond(kind) {
      AbstractUnderDim(b, 0, name, d, reference);
    }
  }

  /** Instantiating a node instantiates its children, where its binder captures no name or
      dimension of a value put under it. */
  lemma InstantiateNode(kind: Kind, name: nat, tag: Tag, a: Form, b: Form, c: Form, d: nat, values: seq<Form>)
    requires kind != VAR && kind != BOUND
    requires BindsFirst(kind) ==> Spared(a, d, values, name)
    requires BindsTubes(kind) || BindsSecond(kind) ==> Spared(b, d, values, name)
    requires TermBinder(kind) ==> forall i :: i in Inserted(b, d + 1, |values|) ==> name !in FreeTerms(values[i])
    ensures Instantiate(Node(kind, name, tag, a, b, c), d, values)
            == Node(kind, name, tag, Instantiate(a, d, values), Instantiate(b, Into(kind, d), values),
                    Instantiate(c, d, values))
  {
    InstantiateFirst(kind, name, a, d, values);
    InstantiateSecond(kind, name, b, d, values);
  }

  lemma AbstractNode(kind: Kind, name: nat, tag: Tag, a: Form, b: Form, c: Form, d: nat, reference: Form)
    requires Reference(reference) && kind != VAR && kind != reference.kind
    ensures Abstract(Node(kind, name, tag, a, b, c), d, reference)
            == Node(kind, name, tag, Abstract(a, d, reference), Abstract(b, Into(kind, d), reference),
                    Abstract(c, d, reference))
  {
    AbstractFirst(kind, name, a, d, reference);
    AbstractSecond(kind, name, b, d, reference);
  }

  // ---- Capture by named binders -------------------------------------------------------------

  // Instantiation renames no binder that still carries a term name. So where such a binder
  // is above an index that a value replaces, and the value has the name free, it captures:
  // the answer has fewer free names than the instantiated form.

  /** How often a term name is free. */
  function Count(m: Form, x: nat): nat {
    if m == Absent then 0
    else if m.kind == VAR then (if m.tag == Name(Free(x)) then 1 else 0)
    else Count(m.a, x) + Count(m.b, x) + Count(m.c, x)
  }

  lemma {:induction false} CountFree(m: Form, x: nat)
    ensures Count(m, x) > 0 <==> x in FreeTerms(m)
  {
    if m != Absent && m.kind != VAR {
      CountFree(m.a, x);
      CountFree(m.b, x);
      CountFree(m.c, x);
    }
  }

  lemma {:induction false} CountClosed(m: Form, k: nat, y: nat, x: nat)
    ensures Count(CloseTerm(m, k, y), x) == if x == y then 0 else Count(m, x)
  {
    if m != Absent && m.kind != VAR {
      CountClosed(m.a, k, y, x);
      CountClosed(m.b, Into(m.kind, k), y, x);
      CountClosed(m.c, k, y, x);
    }
  }

  lemma {:induction false} CountClosedDim(m: Form, k: nat, e: nat, x: nat)
    ensures Count(CloseDim(m, k, e), x) == Count(m, x) && Count(CloseList(m, k, e), x) == Count(m, x)
  {
    if m != Absent && m.kind != VAR {
      CountClosedDim(m.a, k, e, x);
      CountClosedDim(m.a, k + 1, e, x);
      CountClosedDim(m.b, k, e, x);
      CountClosedDim(m.b, k + 1, e, x);
      CountClosedDim(m.c, k, e, x);
    }
  }

  lemma {:induction false} CountClosedTubes(m: Form, e: nat, x: nat)
    ensures Count(CloseTubes(m, e), x) == Count(m, x)
  {
    if m != Absent && m.kind != VAR {
      CountClosedDim(m.a, 0, e, x);
      CountClosedTubes(m.b, e, x);
    }
  }

  /** Instantiating under a closed name: the form's own occurrences are bound, the values'
      are not. */
  lemma {:induction false} CountInstantiated(m: Form, k: nat, y: nat, d: nat, values: seq<Form>, x: nat)
    ensures Count(Instantiate(m, d, values), x)
            == Count(Instantiate(CloseTerm(m, k, y), d, values), x) + if x == y then Count(m, x) else 0
  {
    if m != Absent && m.kind != VAR {
      ClosedTerm(m, k, y);
      SameLeaf(m, CloseTerm(m, k, y), BOUND);
      if !IsLeaf(m, BOUND) {
        CountInstantiated(m.a, k, y, d, values, x);
        CountInstantiated(m.b, Into(m.kind, k), y, Into(m.kind, d), values, x);
        CountInstantiated(m.c, k, y, d, values, x);
      }
    }
  }

  lemma {:induction false} CountInserted(m: Form, d: nat, values: seq<Form>, i: nat, x: nat)
    requires i in Inserted(m, d, |values|)
    ensures Count(Instantiate(m, d, values), x) >= Count(m, x) + Count(values[i], x)
  {
    if m != Absent && m.kind != VAR && !IsLeaf(m, BOUND) {
      CountMore(m.a, d, values, x);
      CountMore(m.b, Into(m.kind, d), values, x);
      CountMore(m.c, d, values, x);
      if i in Inserted(m.a, d, |values|) {
        CountInserted(m.a, d, values, i, x);
      } else if i in Inserted(m.b, Into(m.kind, d), |values|) {
        CountInserted(m.b, Into(m.kind, d), values, i, x);
      } else {
        CountInserted(m.c, d, values, i, x);
      }
    }
  }

  lemma {:induction false} CountMore(m: Form, d: nat, values: seq<Form>, x: nat)
    ensures Count(Instantiate(m, d, values), x) >= Count(m, x)
  {
    if m != Absent && m.kind != VAR && !IsLeaf(m, BOUND) {
      CountMore(m.a, d, values, x);
      CountMore(m.b, Into(m.kind, d), values, x);
      CountMore(m.c, d, values, x);
    }
  }

  lemma CountNode(kind: Kind, name: nat, tag: Tag, a: Form, b: Form, c: Form, x: nat)
    requires kind != VAR
    ensures Count(Node(kind, name, tag, a, b, c), x)
            == Count(a, x) + (if TermBinder(kind) && x == name then 0 else Count(b, x)) + Count(c, x)
  {
    CountClosedDim(a, 0, name, x);
    CountClosed(b, 0, name, x);
    CountClosedDim(b, 0, name, x);
    CountClosedTubes(b, name, x);
  }

  lemma CountNodeInstantiated(kind: Kind, name: nat, tag: Tag, a: Form, b: Form, c: Form, d: nat, values: seq<Form>,
                              x: nat)
    requires kind != VAR && kind != BOUND
    requires BindsFirst(kind) ==> Spared(a, d, values, name)
    requires BindsTubes(kind) || BindsSecond(kind) ==> Spared(b, d, values, name)
    ensures Count(Instantiate(Node(kind, name, tag, a, b, c), d, values), x)
            + (if TermBinder(kind) && x == name then Count(b, x) else 0)
            == Count(Instantiate(a, d, values), x) + Count(Instantiate(b, Into(kind, d), values), x)
                + Count(Instantiate(c, d, values), x)
  {
    CountFirstInstantiated(kind, name, a, d, values, x);
    CountSecondInstantiated(kind, name, b, d, values, x);
    var m := Node(kind, name, tag, a, b, c);
    assert Instantiate(m, d, values)
      == Form(kind, m.tag, Instantiate(m.a, d, values), Instantiate(m.b, Into(kind, d), values),
              Instantiate(c, d, values));
  }

  lemma CountFirstInstantiated(kind: Kind, name: nat, a: Form, d: nat, values: seq<Form>, x: nat)
    requires BindsFirst(kind) ==> Spared(a, d, values, name)
    ensures Count(Instantiate(BoundFirst(kind, name, a), d, values), x) == Count(Instantiate(a, d, values), x)
  {
    InstantiateFirst(kind, name, a, d, values);
    CountClosedDim(Instantiate(a, d, values), 0, name, x);
  }

  lemma CountSecondInstantiated(kind: Kind, name: nat, b: Form, d: nat, values: seq<Form>, x: nat)
    requires BindsTubes(kind) || BindsSecond(kind) ==> Spared(b, d, values, name)
    ensures Count(Instantiate(BoundSecond(kind, name, b), Into(kind, d), values), x)
            + (if TermBinder(kind) && x == name then Count(b, x) else 0)
            == Count(Instantiate(b, Into(kind, d), values), x)
  {
    if TermBinder(kind) {
      CountInstantiated(b, 0, name, d + 1, values, x);
    } else {
      InstantiateSecond(kind, name, b, d, values);
      CountClosedDim(Instantiate(b, Into(kind, d), values), 0, name, x);
      CountClosedTubes(Instantiate(b, Into(kind, d), values), name, x);
    }
  }

  /** `r` is the goal unless something was captured; then it has fewer free names, but no
      fewer than the form before. */
  ghost predicate Exact(m: Form, r: Form, goal: Form, captured: bool) {
    && (forall x: nat {:trigger Between(m, r, goal, x)} :: Between(m, r, goal, x))
    && (if captured then exists x: nat {:trigger Fewer(r, goal, x)} :: Fewer(r, goal, x) else r == goal)
  }

  predicate Between(m: Form, r: Form, goal: Form, x: nat) { Count(m, x) <= Count(r, x) <= Count(goal, x) }

  predicate Fewer(r: Form, goal: Form, x: nat) { Count(r, x) < Count(goal, x) }

  lemma ExactIff(m: Form, r: Form, goal: Form, captured: bool)
    requires Exact(m, r, goal, captured)
    ensures r == goal <==> !captured
  {
    if captured {
      var x: nat :| Fewer(r, goal, x);
    }
  }

  /** Whether the node's own binder captures. */
  ghost predicate BinderCaptures(kind: Kind, name: nat, b: Form, d: nat, values: seq<Form>) {
    TermBinder(kind) && exists i :: i in Inserted(b, d + 1, |values|) && name in FreeTerms(values[i])
  }

  /** How often a name is free in a node rebuilt from its children's answers. */
  lemma CountRebuilt(kind: Kind, name: nat, tag: Tag, a: Form, b: Form, c: Form, a': Form, b': Form, c': Form,
                     d: nat, values: seq<Form>, x: nat)
    requires kind != VAR && kind != BOUND
    requires BindsFirst(kind) ==> Spared(a, d, values, name)
    requires BindsTubes(kind) || BindsSecond(kind) ==> Spared(b, d, values, name)
    requires Count(a, x) <= Count(a', x) <= Count(Instantiate(a, d, values), x)
    requires Count(b, x) <= Count(b', x) <= Count(Instantiate(b, Into(kind, d), values), x)
    requires Count(c, x) <= Count(c', x) <= Count(Instantiate(c, d, values), x)
    ensures var r, goal := Node(kind, name, tag, a', b', c'), Instantiate(Node(kind, name, tag, a, b, c), d, values);
            && Count(Node(kind, name, tag, a, b, c), x) <= Count(r, x) <= Count(goal, x)
            && (Count(a', x) < Count(Instantiate(a, d, values), x) ==> Count(r, x) < Count(goal, x))
            && (Count(b', x) < Count(Instantiate(b, Into(kind, d), values), x) ==> Count(r, x) < Count(goal, x))
            && (Count(c', x) < Count(Instantiate(c, d, values), x) ==> Count(r, x) < Count(goal, x))
  {
    CountNode(kind, name, tag, a, b, c, x);
    CountNode(kind, name, tag, a', b', c', x);
    CountNodeInstantiated(kind, name, tag, a, b, c, d, values, x);
  }

  /** A name that the node's own binder captured. */
  lemma CountCaptured(kind: Kind, name: nat, tag: Tag, a: Form, b: Form, c: Form, a': Form, b': Form, c': Form, d: nat,
                      values: seq<Form>)
    requires kind != VAR && kind != BOUND && BinderCaptures(kind, name, b, d, values)
    requires Count(a', name) <= Count(Instantiate(a, d, values), name)
    requires Count(c', name) <= Count(Instantiate(c, d, values), name)
    ensures Count(Node(kind, name, tag, a', b', c'),
                  name) < Count(Instantiate(Node(kind, name, tag, a, b, c), d, values), name)
  {
    var i :| i in Inserted(b, d + 1, |values|) && name in FreeTerms(values[i]);
    CountFree(values[i], name);
    CountInserted(b, d + 1, values, i, name);
    CountNode(kind, name, tag, a', b', c', name);
    CountNodeInstantiated(kind, name, tag, a, b, c, d, values, name);
  }

  lemma BetweenNode(kind: Kind, name: nat, tag: Tag, a: Form, b: Form, c: Form, a': Form, b': Form, c': Form,
                    d: nat, values: seq<Form>, inA: bool, inB: bool, inC: bool, x: nat)
    requires kind != VAR && kind != BOUND
    requires BindsFirst(kind) ==> Spared(a, d, values, name)
    requires BindsTubes(kind) || BindsSecond(kind) ==> Spared(b, d, values, name)
    requires Exact(a, a', Instantiate(a, d, values), inA) && Exact(b, b', Instantiate(b, Into(kind, d), values), inB)
    requires Exact(c, c', Instantiate(c, d, values), inC)
    ensures Between(Node(kind, name, tag, a, b, c), Node(kind, name, tag, a', b', c'),
                    Instantiate(Node(kind, name, tag, a, b, c), d, values), x)
  {
    assert Between(a, a', Instantiate(a, d, values), x) && Between(b, b', Instantiate(b, Into(kind, d), values), x);
    assert Between(c, c', Instantiate(c, d, values), x);
    CountRebuilt(kind, name, tag, a, b, c, a', b', c', d, values, x);
  }

  /** What a child's answer lacks, the node's lacks. */
  lemma FewerInside(kind: Kind, name: nat, tag: Tag, a: Form, b: Form, c: Form, a': Form, b': Form, c': Form,
                    d: nat, values: seq<Form>, inA: bool, inB: bool, inC: bool) returns (x: nat)
    requires kind != VAR && kind != BOUND
    requires BindsFirst(kind) ==> Spared(a, d, values, name)
    requires BindsTubes(kind) || BindsSecond(kind) ==> Spared(b, d, values, name)
    requires Exact(a, a', Instantiate(a, d, values), inA) && Exact(b, b', Instantiate(b, Into(kind, d), values), inB)
    requires Exact(c, c', Instantiate(c, d, values), inC)
    requires inA || inB || inC
    ensures Fewer(Node(kind, name, tag, a', b', c'), Instantiate(Node(kind, name, tag, a, b, c), d, values), x)
  {
    if inA {
      x :| Fewer(a', Instantiate(a, d, values), x);
    } else if inB {
      x :| Fewer(b', Instantiate(b, Into(kind, d), values), x);
    } else {
      x :| Fewer(c', Instantiate(c, d, values), x);
    }
    assert Between(a, a', Instantiate(a, d, values), x) && Between(b, b', Instantiate(b, Into(kind, d), values), x);
    assert Between(c, c', Instantiate(c, d, values), x);
    CountRebuilt(kind, name, tag, a, b, c, a', b', c', d, values, x);
  }

  lemma FewerHere(kind: Kind, name: nat, tag: Tag, a: Form, b: Form, c: Form, a': Form, b': Form, c': Form,
                    d: nat, values: seq<Form>, inA: bool, inB: bool, inC: bool)
    requires kind != VAR && kind != BOUND
    requires BindsFirst(kind) ==> Spared(a, d, values, name)
    requires BindsTubes(kind) || BindsSecond(kind) ==> Spared(b, d, values, name)
    requires Exact(a, a', Instantiate(a, d, values), inA) && Exact(b, b', Instantiate(b, Into(kind, d), values), inB)
    requires Exact(c, c', Instantiate(c, d, values), inC)
    requires BinderCaptures(kind, name, b, d, values)
    ensures Fewer(Node(kind, name, tag, a', b', c'), Instantiate(Node(kind, name, tag, a, b, c), d, values), name)
  {
    assert Between(a, a', Instantiate(a, d, values), name) && Between(c, c', Instantiate(c, d, values), name);
    CountCaptured(kind, name, tag, a, b, c, a', b', c', d, values);
  }

  /** A node rebuilt from its children's answers. */
  lemma ExactNode(kind: Kind, name: nat, tag: Tag, a: Form, b: Form, c: Form, a': Form, b': Form, c': Form,
                    d: nat, values: seq<Form>, inA: bool, inB: bool, inC: bool)
    requires kind != VAR && kind != BOUND
    requires BindsFirst(kind) ==> Spared(a, d, values, name)
    requires BindsTubes(kind) || BindsSecond(kind) ==> Spared(b, d, values, name)
    requires Exact(a, a', Instantiate(a, d, values), inA) && Exact(b, b', Instantiate(b, Into(kind, d), values), inB)
    requires Exact(c, c', Instantiate(c, d, values), inC)
    ensures Exact(Node(kind, name, tag, a, b, c), Node(kind, name, tag, a', b', c'),
                  Instantiate(Node(kind, name, tag, a, b, c), d, values),
                  inA || inB || inC || BinderCaptures(kind, name, b, d, values))
  {
    forall x: nat
      ensures Between(Node(kind, name, tag, a, b, c), Node(kind, name, tag, a', b', c'),
                      Instantiate(Node(kind, name, tag, a, b, c), d, values), x)
    {
      BetweenNode(kind, name, tag, a, b, c, a', b', c', d, values, inA, inB, inC, x);
    }
    if BinderCaptures(kind, name, b, d, values) {
      FewerHere(kind, name, tag, a, b, c, a', b', c', d, values, inA, inB, inC);
    } else if inA || inB || inC {
      var x := FewerInside(kind, name, tag, a, b, c, a', b', c', d, values, inA, inB, inC);
    } else {
      InstantiateNode(kind, name, tag, a, b, c, d, values);
    }
  }
}
