/** The reference meaning of syntax: nameless trees. A bound term name or dimension is
    an index, a formula is its set of clauses, and binders carry no names. So two
    terms agree up to bound names exactly when their trees are equal.

    A composition binds its direction in its family and in its tubes' bodies, but not
    in their faces; a homogeneous composition does not bind it in its type. */
module Nameless {
  import opened Lattice

  datatype Kind =
    | VAR | BOUND | OPENED | CONTEXT | LEAF
    | PI | LAM | APP
    | PATH | PLAM | PAPP | COMP | HCOMP | TRANS | TUBE

  /** A free name, or the index of an enclosing binder, 0 the innermost. */
  datatype Atom = Free(name: nat) | Index(index: nat)

  datatype Tag =
    | NoTag
    | Name(atom: Atom)
    | Number(number: nat)
    | Formula(sort: Sort, clauses: set<Clause<Atom>>)

  datatype Form = Absent | Form(kind: Kind, tag: Tag, a: Form, b: Form, c: Form)

  predicate TermBinder(kind: Kind) { kind == PI || kind == LAM }

  predicate DimBinder(kind: Kind) { kind in {PATH, PLAM, COMP, HCOMP, TRANS} }

  /** Whether a dimension binder binds in its first child, as a whole in its second,
      or in the bodies of the tube list that is its second. */
  predicate BindsFirst(kind: Kind) { DimBinder(kind) && kind != HCOMP }

  predicate BindsSecond(kind: Kind) { kind == PLAM }

  predicate BindsTubes(kind: Kind) { kind == COMP || kind == HCOMP }

  function Variable(atom: Atom): Form { Form(VAR, Name(atom), Absent, Absent, Absent) }

  // ---- Closing over a term name ---------------------------------------------------------

  /** The free occurrences of `y`, under `k` term binders, become the index of a binder
      put around the form. */
  function CloseTerm(m: Form, k: nat, y: nat): Form {
    match m
    case Absent => Absent
    case Form(kind, tag, a, b, c) =>
      if kind == VAR then (if tag == Name(Free(y)) then Variable(Index(k)) else m)
      else Form(kind, tag, CloseTerm(a, k, y), CloseTerm(b, if TermBinder(kind) then k + 1 else k, y),
                CloseTerm(c, k, y))
  }

  // ---- Closing over a dimension -----------------------------------------------------------

  function Closing(k: nat, e: nat): Atom -> Atom {
    (x: Atom) => if x == Free(e) then Index(k) else x
  }

  ghost function CloseTag(tag: Tag, k: nat, e: nat): Tag {
    if tag.Formula? then Formula(tag.sort, Renamed(tag.sort, tag.clauses, Closing(k, e))) else tag
  }

  ghost function CloseDim(m: Form, k: nat, e: nat): Form {
    match m
    case Absent => Absent
    case Form(kind, tag, a, b, c) =>
      Form(kind, CloseTag(tag, k, e),
           CloseDim(a, if BindsFirst(kind) then k + 1 else k, e),
           if BindsTubes(kind) then CloseList(b, k, e)
           else CloseDim(b, if BindsSecond(kind) then k + 1 else k, e),
           CloseDim(c, k, e))
  }

  /** Closing inside a tube list of a composition: the bodies are one binder deeper
      than the faces. */
  ghost function CloseList(m: Form, k: nat, e: nat): Form {
    match m
    case Absent => Absent
    case Form(kind, tag, a, b, c) => Form(kind, CloseTag(tag, k, e), CloseDim(a, k + 1, e), CloseList(b, k, e),
           CloseDim(c, k, e))
  }

  /** A composition's direction binds the tube bodies, never the faces. */
  ghost function CloseTubes(m: Form, e: nat): Form {
    match m
    case Absent => Absent
    case Form(kind, tag, a, b, c) => Form(kind, tag, CloseDim(a, 0, e), CloseTubes(b, e), c)
  }

  // ---- The form of a node ------------------------------------------------------------------

  /** The nameless form of a node with the given payload tag and children: a name
      that the node binds is closed over in the children that it binds. */
  ghost function Node(kind: Kind, name: nat, tag: Tag, a: Form, b: Form, c: Form): Form {
    Form(kind, NodeTag(kind, tag), BoundFirst(kind, name, a), BoundSecond(kind, name, b), c)
  }

  function NodeTag(kind: Kind, tag: Tag): Tag {
    if TermBinder(kind) || DimBinder(kind) then NoTag else tag
  }

  ghost function BoundFirst(kind: Kind, name: nat, a: Form): Form {
    if BindsFirst(kind) then CloseDim(a, 0, name) else a
  }

  ghost function BoundSecond(kind: Kind, name: nat, b: Form): Form {
    if TermBinder(kind) then CloseTerm(b, 0, name)
    else if BindsTubes(kind) then CloseTubes(b, name)
    else if BindsSecond(kind) then CloseDim(b, 0, name)
    else b
  }

  // ---- Free names --------------------------------------------------------------------------

  function FreeTerms(m: Form): set<nat> {
    match m
    case Absent => {}
    case Form(kind, tag, a, b, c) =>
      if kind == VAR then (if tag.Name? && tag.atom.Free? then {tag.atom.name} else {})
      else FreeTerms(a) + FreeTerms(b) + FreeTerms(c)
  }

  ghost predicate TagMentions(tag: Tag, d: nat) {
    tag.Formula? && Mentions(tag.clauses, Free(d))
  }

  ghost predicate DimFree(m: Form, d: nat) {
    match m
    case Absent => false
    case Form(kind, tag, a, b, c) => TagMentions(tag, d) || DimFree(a, d) || DimFree(b, d) || DimFree(c, d)
  }

  /** Every formula is in normal form. */
  ghost predicate Canonic(m: Form) {
    match m
    case Absent => true
    case Form(kind, tag, a, b, c) =>
      (tag.Formula? ==> Normal(tag.sort, tag.clauses)) && Canonic(a) && Canonic(b) && Canonic(c)
  }

  // ---- Substitution ------------------------------------------------------------------------

  /** The free name `x` replaced by a value. No index is shifted: a value that stands
      for a whole term has none that is unbound. */
  function SubstTerm(m: Form, x: nat, v: Form): Form {
    match m
    case Absent => Absent
    case Form(kind, tag, a, b, c) =>
      if kind == VAR then (if tag == Name(Free(x)) then v else m)
      else Form(kind, tag, SubstTerm(a, x, v), SubstTerm(b, x, v), SubstTerm(c, x, v))
  }

  ghost function SubstTag(tag: Tag, d: nat, s: set<Clause<Atom>>): Tag {
    if tag.Formula? then Formula(tag.sort, Substituted(tag.sort, tag.clauses, Free(d), s)) else tag
  }

  /** The free dimension `d` replaced by an interval expression, in every formula. */
  ghost function SubstDim(m: Form, d: nat, s: set<Clause<Atom>>): Form {
    match m
    case Absent => Absent
    case Form(kind, tag, a, b, c) =>
      Form(kind, SubstTag(tag, d, s), SubstDim(a, d, s), SubstDim(b, d, s), SubstDim(c, d, s))
  }

  /** Only the bodies, or only the faces, of a tube list. */
  ghost function SubstList(m: Form, d: nat, s: set<Clause<Atom>>, bodies: bool, faces: bool): Form {
    match m
    case Absent => Absent
    case Form(kind, tag, a, b, c) =>
      Form(kind, if faces then SubstTag(tag, d, s) else tag,
           if bodies then SubstDim(a, d, s) else a, SubstList(b, d, s, bodies, faces),
               if faces then SubstDim(c, d, s) else c)
  }

  // ---- Laws of term substitution -------------------------------------------------------------

  lemma {:induction false} CloseTermFree(m: Form, k: nat, y: nat)
    ensures FreeTerms(CloseTerm(m, k, y)) == FreeTerms(m) - {y}
  {
    if m.Form? && m.kind != VAR {
      CloseTermFree(m.a, k, y);
      CloseTermFree(m.b, if TermBinder(m.kind) then k + 1 else k, y);
      CloseTermFree(m.c, k, y);
    }
  }

  lemma {:induction false} SubstTermAbsent(m: Form, x: nat, v: Form)
    requires x !in FreeTerms(m)
    ensures SubstTerm(m, x, v) == m
  {
    if m.Form? && m.kind != VAR {
      SubstTermAbsent(m.a, x, v);
      SubstTermAbsent(m.b, x, v);
      SubstTermAbsent(m.c, x, v);
    }
  }

  lemma {:induction false} CloseTermAbsent(m: Form, k: nat, y: nat)
    requires y !in FreeTerms(m)
    ensures CloseTerm(m, k, y) == m
  {
    if m.Form? && m.kind != VAR {
      CloseTermAbsent(m.a, k, y);
      CloseTermAbsent(m.b, if TermBinder(m.kind) then k + 1 else k, y);
      CloseTermAbsent(m.c, k, y);
    }
  }

  /** Substitution passes a binder of another name that is not free in the value. */
  lemma {:induction false} SubstUnderTerm(m: Form, k: nat, y: nat, x: nat, v: Form)
    requires y != x && y !in FreeTerms(v)
    ensures SubstTerm(CloseTerm(m, k, y), x, v) == CloseTerm(SubstTerm(m, x, v), k, y)
  {
    if m.Form? && m.kind == VAR {
      CloseTermAbsent(v, k, y);
    } else if m.Form? {
      SubstUnderTerm(m.a, k, y, x, v);
      SubstUnderTerm(m.b, if TermBinder(m.kind) then k + 1 else k, y, x, v);
      SubstUnderTerm(m.c, k, y, x, v);
    }
  }

  /** Renaming a bound name to a fresh one changes nothing. */
  lemma {:induction false} RenameTerm(m: Form, k: nat, y: nat, z: nat)
    requires z !in FreeTerms(m)
    ensures CloseTerm(SubstTerm(m, y, Variable(Free(z))), k, z) == CloseTerm(m, k, y)
  {
    if m.Form? && m.kind != VAR {
      RenameTerm(m.a, k, y, z);
      RenameTerm(m.b, if TermBinder(m.kind) then k + 1 else k, y, z);
      RenameTerm(m.c, k, y, z);
    }
  }

  // ---- Laws of formulas ----------------------------------------------------------------------

  /** The interval expression that is one dimension. */
  function Dimension(d: nat): set<Clause<Atom>> { {Clause({Free(d)}, {})} }

  lemma DimensionHolds(d: nat, v: Point<Atom>)
    ensures Holds(Dimension(d), v) <==> Free(d) in v.one
  {
    assert Clause({Free(d)}, {}) in Dimension(d);
  }

  lemma CloseTagCanonic(tag: Tag, k: nat, e: nat)
    ensures CloseTag(tag, k, e).Formula? ==> Normal(CloseTag(tag, k, e).sort, CloseTag(tag, k, e).clauses)
    ensures forall d :: TagMentions(CloseTag(tag, k, e), d) ==> TagMentions(tag, d) && d != e
  {
    if tag.Formula? {
      RenamedHolds(tag.sort, tag.clauses, Closing(k, e), Generic<Atom>(Top()));
      forall d | TagMentions(CloseTag(tag, k, e), d) ensures TagMentions(tag, d) && d != e {
        RenamedMentions(tag.sort, tag.clauses, Closing(k, e), Free(d));
      }
    }
  }

  lemma SubstTagCanonic(tag: Tag, d: nat, s: set<Clause<Atom>>)
    ensures SubstTag(tag, d, s).Formula? ==> Normal(SubstTag(tag, d, s).sort, SubstTag(tag, d, s).clauses)
  {
    if tag.Formula? { SubstitutedHolds(tag.sort, tag.clauses, Free(d), s, Generic<Atom>(Top())); }
  }

  lemma SubstTagAbsent(tag: Tag, d: nat, s: set<Clause<Atom>>)
    requires tag.Formula? ==> Normal(tag.sort, tag.clauses)
    requires !TagMentions(tag, d)
    ensures SubstTag(tag, d, s) == tag
  {
    if tag.Formula? { SubstituteUnmentioned(tag.sort, tag.clauses, Free(d), s); }
  }

  lemma CloseTagAbsent(tag: Tag, k: nat, e: nat)
    requires tag.Formula? ==> Normal(tag.sort, tag.clauses)
    requires !TagMentions(tag, e)
    ensures CloseTag(tag, k, e) == tag
  {
    if tag.Formula? {
      var s, g := tag.clauses, Closing(k, e);
      RenamedHolds(tag.sort, s, g, Generic<Atom>(Top()));
      forall v: Point<Atom> | Admits(tag.sort, v) ensures Holds(Renamed(tag.sort, s, g), v) <==> Holds(s, v) {
        RenamedHolds(tag.sort, s, g, v);
        AgreeingHolds(s, Pulled(v, g), v);
      }
      Canonical(tag.sort, Renamed(tag.sort, s, g), s);
    }
  }

  /** Renaming a bound dimension to a fresh one changes nothing. */
  lemma RenameTag(tag: Tag, k: nat, e: nat, f: nat)
    requires !TagMentions(tag, f)
    ensures CloseTag(SubstTag(tag, e, Dimension(f)), k, f) == CloseTag(tag, k, e)
  {
    if tag.Formula? {
      var s, sort := tag.clauses, tag.sort;
      var moved := Substituted(sort, s, Free(e), Dimension(f));
      var left, right := Renamed(sort, moved, Closing(k, f)), Renamed(sort, s, Closing(k, e));
      RenamedHolds(sort, moved, Closing(k, f), Generic<Atom>(Top()));
      RenamedHolds(sort, s, Closing(k, e), Generic<Atom>(Top()));
      forall v: Point<Atom> | Admits(sort, v) ensures Holds(left, v) <==> Holds(right, v) {
        var p := Pulled(v, Closing(k, f));
        RenamedHolds(sort, moved, Closing(k, f), v);
        RenamedHolds(sort, s, Closing(k, e), v);
        SubstitutedHolds(sort, s, Free(e), Dimension(f), p);
        DimensionHolds(f, p);
        DimensionHolds(f, Opposite(p));
        AgreeingHolds(s, Moved(p, Free(e), Dimension(f)), Pulled(v, Closing(k, e)));
      }
      Canonical(sort, left, right);
    }
  }

  /** Substitution passes a binder of another dimension that is not free in the value. */
  lemma SubstUnderTag(tag: Tag, k: nat, e: nat, d: nat, s: set<Clause<Atom>>)
    requires e != d && !Mentions(s, Free(e))
    ensures SubstTag(CloseTag(tag, k, e), d, s) == CloseTag(SubstTag(tag, d, s), k, e)
  {
    if tag.Formula? {
      var r, sort, g := tag.clauses, tag.sort, Closing(k, e);
      var left := Substituted(sort, Renamed(sort, r, g), Free(d), s);
      var right := Renamed(sort, Substituted(sort, r, Free(d), s), g);
      SubstitutedHolds(sort, Renamed(sort, r, g), Free(d), s, Generic<Atom>(Top()));
      RenamedHolds(sort, Substituted(sort, r, Free(d), s), g, Generic<Atom>(Top()));
      forall v: Point<Atom> | Admits(sort, v) ensures Holds(left, v) <==> Holds(right, v) {
        SubstitutedHolds(sort, Renamed(sort, r, g), Free(d), s, v);
        RenamedHolds(sort, r, g, Moved(v, Free(d), s));
        RenamedHolds(sort, Substituted(sort, r, Free(d), s), g, v);
        SubstitutedHolds(sort, r, Free(d), s, Pulled(v, g));
        PulledMoved(v, k, e, d, s);
      }
      Canonical(sort, left, right);
    }
  }

  lemma PulledMoved(v: Point<Atom>, k: nat, e: nat, d: nat, s: set<Clause<Atom>>)
    requires e != d && !Mentions(s, Free(e))
    ensures Pulled(Moved(v, Free(d), s), Closing(k, e)) == Moved(Pulled(v, Closing(k, e)), Free(d), s)
  {
    var g := Closing(k, e);
    AgreeingHolds(s, v, Pulled(v, g));
    AgreeingHolds(s, Opposite(v), Opposite(Pulled(v, g)));
    assert Pulled(Moved(v, Free(d), s), g).one == Moved(Pulled(v, g), Free(d), s).one;
    assert Pulled(Moved(v, Free(d), s), g).zero == Moved(Pulled(v, g), Free(d), s).zero;
  }

  // ---- Laws of dimensions --------------------------------------------------------------------

  lemma {:induction false} CloseDimCanonic(m: Form, k: nat, e: nat)
    ensures Canonic(m) ==> Canonic(CloseDim(m, k, e)) && Canonic(CloseList(m, k, e)) && Canonic(CloseTubes(m, e))
    ensures forall d :: DimFree(CloseDim(m, k, e), d) ==> DimFree(m, d) && d != e
    ensures forall d :: DimFree(CloseList(m, k, e), d) ==> DimFree(m, d) && d != e
    ensures forall d :: DimFree(CloseTubes(m, e), d) ==> DimFree(m, d)
  {
    if m.Form? {
      CloseTagCanonic(m.tag, k, e);
      CloseDimCanonic(m.a, k, e);
      CloseDimCanonic(m.a, k + 1, e);
      CloseDimCanonic(m.a, 0, e);
      CloseDimCanonic(m.b, k + 1, e);
      CloseDimCanonic(m.b, k, e);
      CloseDimCanonic(m.c, k, e);
    }
  }

  lemma {:induction false} SubstDimCanonic(m: Form, d: nat, s: set<Clause<Atom>>, bodies: bool, faces: bool)
    ensures Canonic(m) ==> Canonic(SubstDim(m, d, s)) && Canonic(SubstList(m, d, s, bodies, faces))
  {
    if m.Form? {
      SubstTagCanonic(m.tag, d, s);
      SubstDimCanonic(m.a, d, s, bodies, faces);
      SubstDimCanonic(m.b, d, s, bodies, faces);
      SubstDimCanonic(m.c, d, s, bodies, faces);
    }
  }

  lemma {:induction false} SubstTermCanonic(m: Form, x: nat, v: Form)
    requires Canonic(m) && Canonic(v)
    ensures Canonic(SubstTerm(m, x, v))
  {
    if m.Form? && m.kind != VAR {
      SubstTermCanonic(m.a, x, v);
      SubstTermCanonic(m.b, x, v);
      SubstTermCanonic(m.c, x, v);
    }
  }

  lemma {:induction false} CloseTermDims(m: Form, k: nat, y: nat)
    ensures Canonic(m) ==> Canonic(CloseTerm(m, k, y))
    ensures forall d :: DimFree(CloseTerm(m, k, y), d) ==> DimFree(m, d)
  {
    if m.Form? && m.kind != VAR {
      CloseTermDims(m.a, k, y);
      CloseTermDims(m.b, if TermBinder(m.kind) then k + 1 else k, y);
      CloseTermDims(m.c, k, y);
    }
  }

  lemma {:induction false} SubstDimAbsent(m: Form, d: nat, s: set<Clause<Atom>>)
    requires Canonic(m) && !DimFree(m, d)
    ensures SubstDim(m, d, s) == m
  {
    if m.Form? {
      SubstTagAbsent(m.tag, d, s);
      SubstDimAbsent(m.a, d, s);
      SubstDimAbsent(m.b, d, s);
      SubstDimAbsent(m.c, d, s);
    }
  }

  lemma {:induction false} CloseDimAbsent(m: Form, k: nat, e: nat)
    requires Canonic(m) && !DimFree(m, e)
    ensures CloseDim(m, k, e) == m && CloseList(m, k, e) == m && CloseTubes(m, e) == m
  {
    if m.Form? {
      CloseTagAbsent(m.tag, k, e);
      CloseDimAbsent(m.a, k, e);
      CloseDimAbsent(m.a, k + 1, e);
      CloseDimAbsent(m.a, 0, e);
      CloseDimAbsent(m.b, k, e);
      CloseDimAbsent(m.b, k + 1, e);
      CloseDimAbsent(m.c, k, e);
    }
  }

  /** Term substitution passes a dimension binder that is not free in the value. */
  lemma {:induction false} SubstTermUnderDim(m: Form, k: nat, f: nat, x: nat, v: Form)
    requires Canonic(v) && !DimFree(v, f)
    ensures SubstTerm(CloseDim(m, k, f), x, v) == CloseDim(SubstTerm(m, x, v), k, f)
    ensures SubstTerm(CloseList(m, k, f), x, v) == CloseList(SubstTerm(m, x, v), k, f)
    ensures SubstTerm(CloseTubes(m, f), x, v) == CloseTubes(SubstTerm(m, x, v), f)
  {
    if m.Form? {
      CloseDimAbsent(v, k, f);
      SubstTermUnderDim(m.a, k, f, x, v);
      SubstTermUnderDim(m.a, k + 1, f, x, v);
      SubstTermUnderDim(m.a, 0, f, x, v);
      SubstTermUnderDim(m.b, k, f, x, v);
      SubstTermUnderDim(m.b, k + 1, f, x, v);
      SubstTermUnderDim(m.c, k, f, x, v);
    }
  }

  /** Renaming a bound dimension to a fresh one changes nothing, where it binds. */
  lemma {:induction false} RenameDim(m: Form, k: nat, e: nat, f: nat)
    requires !DimFree(m, f)
    ensures CloseDim(SubstDim(m, e, Dimension(f)), k, f) == CloseDim(m, k, e)
    ensures CloseList(SubstDim(m, e, Dimension(f)), k, f) == CloseList(m, k, e)
    ensures CloseTubes(SubstList(m, e, Dimension(f), true, false), f) == CloseTubes(m, e)
  {
    if m.Form? {
      RenameTag(m.tag, k, e, f);
      RenameDim(m.a, k, e, f);
      RenameDim(m.a, k + 1, e, f);
      RenameDim(m.a, 0, e, f);
      RenameDim(m.b, k, e, f);
      RenameDim(m.b, k + 1, e, f);
      RenameDim(m.c, k, e, f);
    }
  }

  /** Dimension substitution passes a binder of another dimension that is not in the
      value; a composition's tubes are substituted in their bodies and their faces. */
  lemma {:induction false} SubstUnderDim(m: Form, k: nat, e: nat, d: nat, s: set<Clause<Atom>>)
    requires e != d && !Mentions(s, Free(e))
    ensures SubstDim(CloseDim(m, k, e), d, s) == CloseDim(SubstDim(m, d, s), k, e)
    ensures SubstDim(CloseList(m, k, e), d, s) == CloseList(SubstDim(m, d, s), k, e)
    ensures SubstDim(CloseTubes(m, e), d, s) == CloseTubes(SubstList(m, d, s, true, true), e)
  {
    if m.Form? {
      SubstUnderTag(m.tag, k, e, d, s);
      SubstUnderDim(m.a, k, e, d, s);
      SubstUnderDim(m.a, k + 1, e, d, s);
      SubstUnderDim(m.a, 0, e, d, s);
      SubstUnderDim(m.b, k, e, d, s);
      SubstUnderDim(m.b, k + 1, e, d, s);
      SubstUnderDim(m.c, k, e, d, s);
    }
  }

  /** Under a composition that binds `d` itself, only the tubes' faces change. */
  lemma {:induction false} SubstBoundTubes(m: Form, d: nat, s: set<Clause<Atom>>)
    requires Canonic(m)
    ensures SubstDim(CloseTubes(m, d), d, s) == CloseTubes(SubstList(m, d, s, false, true), d)
  {
    if m.Form? {
      CloseDimCanonic(m.a, 0, d);
      SubstDimAbsent(CloseDim(m.a, 0, d), d, s);
      SubstBoundTubes(m.b, d, s);
    }
  }

  lemma {:induction false} SubstListAll(m: Form, d: nat, s: set<Clause<Atom>>)
    ensures SubstList(m, d, s, true, true) == SubstDim(m, d, s)
  {
    if m.Form? { SubstListAll(m.b, d, s); }
  }

  lemma {:induction false} SubstDimUnderTerm(m: Form, k: nat, y: nat, d: nat, s: set<Clause<Atom>>)
    ensures SubstDim(CloseTerm(m, k, y), d, s) == CloseTerm(SubstDim(m, d, s), k, y)
  {
    if m.Form? && m.kind != VAR {
      SubstDimUnderTerm(m.a, k, y, d, s);
      SubstDimUnderTerm(m.b, if TermBinder(m.kind) then k + 1 else k, y, d, s);
      SubstDimUnderTerm(m.c, k, y, d, s);
    }
  }

  // ---- Substitution into a node ----------------------------------------------------------------

  /** Term substitution into a node whose binder captures nothing of the value. */
  lemma SubstTermNode(kind: Kind, name: nat, tag: Tag, a: Form, b: Form, c: Form, x: nat, v: Form)
    requires kind != VAR && Canonic(v)
    requires TermBinder(kind) && name != x ==> name !in FreeTerms(v)
    requires DimBinder(kind) ==> !DimFree(v, name)
    ensures SubstTerm(Node(kind, name, tag, a, b, c), x, v)
            == Node(kind, name, tag, SubstTerm(a, x, v),
                    if TermBinder(kind) && name == x then b else SubstTerm(b, x, v), SubstTerm(c, x, v))
  {
    if DimBinder(kind) { SubstTermUnderDim(a, 0, name, x, v); }
    SubstTermSecond(kind, name, b, x, v);
  }

  lemma SubstTermSecond(kind: Kind, name: nat, b: Form, x: nat, v: Form)
    requires Canonic(v)
    requires TermBinder(kind) && name != x ==> name !in FreeTerms(v)
    requires DimBinder(kind) ==> !DimFree(v, name)
    ensures SubstTerm(BoundSecond(kind, name, b), x, v)
            == BoundSecond(kind, name, if TermBinder(kind) && name == x then b else SubstTerm(b, x, v))
  {
    if TermBinder(kind) && name == x {
      CloseTermFree(b, 0, x);
      SubstTermAbsent(CloseTerm(b, 0, x), x, v);
    } else if TermBinder(kind) {
      SubstUnderTerm(b, 0, name, x, v);
    } else if DimBinder(kind) {
      SubstTermUnderDim(b, 0, name, x, v);
    }
  }

  /** What dimension substitution does to the first and second child of a node. */
  ghost function FirstSubst(kind: Kind, name: nat, a: Form, d: nat, s: set<Clause<Atom>>): Form {
    if BindsFirst(kind) && name == d then a else SubstDim(a, d, s)
  }

  ghost function SecondSubst(kind: Kind, name: nat, b: Form, d: nat, s: set<Clause<Atom>>): Form {
    if BindsTubes(kind) then SubstList(b, d, s, name != d, true)
    else if BindsSecond(kind) && name == d then b
    else SubstDim(b, d, s)
  }

  lemma SubstFirst(kind: Kind, name: nat, a: Form, d: nat, s: set<Clause<Atom>>)
    requires Canonic(a)
    requires DimBinder(kind) && name != d ==> !Mentions(s, Free(name))
    ensures SubstDim(BoundFirst(kind, name, a), d, s) == BoundFirst(kind, name, FirstSubst(kind, name, a, d, s))
  {
    if BindsFirst(kind) && name != d {
      SubstUnderDim(a, 0, name, d, s);
    } else if BindsFirst(kind) {
      CloseDimCanonic(a, 0, d);
      SubstDimAbsent(CloseDim(a, 0, d), d, s);
    }
  }

  lemma SubstSecond(kind: Kind, name: nat, b: Form, d: nat, s: set<Clause<Atom>>)
    requires Canonic(b)
    requires DimBinder(kind) && name != d ==> !Mentions(s, Free(name))
    ensures SubstDim(BoundSecond(kind, name, b), d, s) == BoundSecond(kind, name, SecondSubst(kind, name, b, d, s))
  {
    if TermBinder(kind) {
      SubstDimUnderTerm(b, 0, name, d, s);
    } else if DimBinder(kind) && name != d {
      SubstUnderDim(b, 0, name, d, s);
    } else if BindsTubes(kind) {
      SubstBoundTubes(b, d, s);
    } else if BindsSecond(kind) {
      CloseDimCanonic(b, 0, d);
      SubstDimAbsent(CloseDim(b, 0, d), d, s);
    }
  }

  lemma SubstDimNode(kind: Kind, name: nat, tag: Tag, a: Form, b: Form, c: Form, d: nat, s: set<Clause<Atom>>)
    requires Canonic(a) && Canonic(b)
    requires DimBinder(kind) && name != d ==> !Mentions(s, Free(name))
    ensures SubstDim(Node(kind, name, tag, a, b, c), d, s)
            == Node(kind, name, SubstTag(tag, d, s), FirstSubst(kind, name, a, d, s), SecondSubst(kind, name, b, d, s),
                    SubstDim(c, d, s))
  {
    SubstFirst(kind, name, a, d, s);
    SubstSecond(kind, name, b, d, s);
  }

  /** A node with its bound dimension renamed, in the children that it binds. */
  lemma RenameDimNode(kind: Kind, e: nat, f: nat, tag: Tag, a: Form, b: Form, c: Form)
    requires DimBinder(kind)
    requires BindsFirst(kind) ==> !DimFree(a, f)
    requires BindsTubes(kind) || BindsSecond(kind) ==> !DimFree(b, f)
    ensures Node(kind, e, tag, a, b, c)
            == Node(kind, f, tag, if BindsFirst(kind) then SubstDim(a, e, Dimension(f)) else a,
                    if BindsTubes(kind) then SubstList(b, e, Dimension(f), true, false)
                    else if BindsSecond(kind) then SubstDim(b, e, Dimension(f)) else b, c)
  {
    if BindsFirst(kind) { RenameDim(a, 0, e, f); }
    if BindsTubes(kind) || BindsSecond(kind) { RenameDim(b, 0, e, f); }
  }

  /** A node with its bound term name renamed to a fresh one. */
  lemma RenameTermNode(kind: Kind, y: nat, z: nat, tag: Tag, a: Form, b: Form, c: Form)
    requires TermBinder(kind) && z !in FreeTerms(b)
    ensures Node(kind, y, tag, a, b, c) == Node(kind, z, tag, a, SubstTerm(b, y, Variable(Free(z))), c)
  {
    RenameTerm(b, 0, y, z);
  }

  // ---- Forms of whole terms stand alone ----------------------------------------------------------

  /** Every index is that of an enclosing binder, in both namespaces. */
  ghost predicate Closed(m: Form, terms: nat, dims: nat) {
    match m
    case Absent => true
    case Form(kind, tag, a, b, c) =>
      && TagClosed(tag, terms, dims)
      && Closed(a, terms, if BindsFirst(kind) then dims + 1 else dims)
      && (if BindsTubes(kind) then ListClosed(b, terms, dims)
          else Closed(b, if TermBinder(kind) then terms + 1 else terms, if BindsSecond(kind) then dims + 1 else dims))
      && Closed(c, terms, dims)
  }

  ghost predicate ListClosed(m: Form, terms: nat, dims: nat) {
    match m
    case Absent => true
    case Form(kind, tag, a, b, c) =>
      kind == TUBE && TagClosed(tag, terms, dims) && Closed(a, terms, dims + 1) && ListClosed(b, terms, dims)
          && Closed(c, terms, dims)
  }

  ghost predicate TagClosed(tag: Tag, terms: nat, dims: nat) {
    match tag
    case Name(Index(i)) => i < terms
    case Formula(_, clauses) => forall i: nat :: Mentions(clauses, Index(i)) ==> i < dims
    case _ => true
  }

  lemma {:induction false} ClosedWider(m: Form, terms: nat, dims: nat)
    ensures Closed(m, terms, dims) ==> Closed(m, terms + 1, dims)
    ensures ListClosed(m, terms, dims) ==> ListClosed(m, terms + 1, dims)
  {
    if m.Form? {
      ClosedWider(m.a, terms, dims);
      ClosedWider(m.a, terms, dims + 1);
      ClosedWider(m.b, terms, dims);
      ClosedWider(m.b, terms + 1, dims);
      ClosedWider(m.b, terms, dims + 1);
      ClosedWider(m.c, terms, dims);
    }
  }

  lemma {:induction false} CloseTermClosed(m: Form, terms: nat, dims: nat, y: nat)
    ensures Closed(m, terms, dims) ==> Closed(CloseTerm(m, terms, y), terms + 1, dims)
    ensures ListClosed(m, terms, dims) ==> ListClosed(CloseTerm(m, terms, y), terms + 1, dims)
  {
    if m.Form? && m.kind == VAR {
      ClosedWider(m, terms, dims);
    } else if m.Form? {
      CloseTermClosed(m.a, terms, dims, y);
      CloseTermClosed(m.a, terms, dims + 1, y);
      CloseTermClosed(m.b, terms, dims, y);
      CloseTermClosed(m.b, terms + 1, dims, y);
      CloseTermClosed(m.b, terms, dims + 1, y);
      CloseTermClosed(m.c, terms, dims, y);
    }
  }

  lemma CloseTagClosed(tag: Tag, terms: nat, dims: nat, e: nat)
    requires TagClosed(tag, terms, dims)
    ensures TagClosed(CloseTag(tag, dims, e), terms, dims + 1)
  {
    if tag.Formula? {
      forall i: nat | Mentions(CloseTag(tag, dims, e).clauses, Index(i)) ensures i < dims + 1 {
        RenamedMentions(tag.sort, tag.clauses, Closing(dims, e), Index(i));
      }
    }
  }

  lemma {:induction false} CloseDimClosed(m: Form, terms: nat, dims: nat, e: nat)
    ensures Closed(m, terms, dims) ==> Closed(CloseDim(m, dims, e), terms, dims + 1)
    ensures ListClosed(m, terms, dims) ==> ListClosed(CloseList(m, dims, e), terms, dims + 1)
  {
    if m.Form? {
      if TagClosed(m.tag, terms, dims) { CloseTagClosed(m.tag, terms, dims, e); }
      CloseDimClosed(m.a, terms, dims, e);
      CloseDimClosed(m.a, terms, dims + 1, e);
      CloseDimClosed(m.b, terms, dims, e);
      CloseDimClosed(m.b, terms + 1, dims, e);
      CloseDimClosed(m.b, terms, dims + 1, e);
      CloseDimClosed(m.c, terms, dims, e);
    }
  }
}
