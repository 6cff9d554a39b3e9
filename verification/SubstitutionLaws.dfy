/** Laws of the substituted forms: what is free in them, and how substitutions and
    restrictions to faces compose. */
module SubstitutionLaws {
  import opened Lattice
  import opened Nameless
  import opened FreeNames

  // ---- Composition ------------------------------------------------------------------------

  /** A replaced name is gone, and exactly the value's names come in. */
  lemma {:induction false} SubstTermFree(m: Form, x: nat, v: Form)
    ensures FreeTerms(SubstTerm(m, x, v)) == FreeTerms(m) - {x} + if x in FreeTerms(m) then FreeTerms(v) else {}
  {
    if m.Form? && m.kind != VAR {
      SubstTermFree(m.a, x, v);
      SubstTermFree(m.b, x, v);
      SubstTermFree(m.c, x, v);
    }
  }

  /** The substitution lemma for term names. */
  lemma {:induction false} SubstTermTwice(m: Form, x: nat, v: Form, y: nat, u: Form)
    requires x != y && x !in FreeTerms(u)
    ensures SubstTerm(SubstTerm(m, x, v), y, u) == SubstTerm(SubstTerm(m, y, u), x, SubstTerm(v, y, u))
  {
    if m.Form? && m.kind == VAR {
      SubstTermAbsent(u, x, SubstTerm(v, y, u));
    } else if m.Form? {
      SubstTermTwice(m.a, x, v, y, u);
      SubstTermTwice(m.b, x, v, y, u);
      SubstTermTwice(m.c, x, v, y, u);
    }
  }

  /** The two namespaces are independent: a dimension reaches into the value. */
  lemma {:induction false} SubstDimThroughTerm(m: Form, x: nat, v: Form, d: nat, s: set<Clause<Atom>>)
    requires VariablesPlain(m)
    ensures SubstDim(SubstTerm(m, x, v), d, s) == SubstTerm(SubstDim(m, d, s), x, SubstDim(v, d, s))
  {
    if m.Form? && m.kind != VAR {
      SubstDimThroughTerm(m.a, x, v, d, s);
      SubstDimThroughTerm(m.b, x, v, d, s);
      SubstDimThroughTerm(m.c, x, v, d, s);
    }
  }

  /** The substitution lemma for dimensions; `d` may be replaced again. */
  lemma {:induction false} SubstDimTwice(m: Form, d: nat, r: set<Clause<Atom>>, e: nat, t: set<Clause<Atom>>)
    requires e == d || !Mentions(t, Free(d))
    ensures SubstDim(SubstDim(m, d, r), e, t)
            == SubstDim(if e == d then m else SubstDim(m, e, t), d, SubstituteInterval(r, Free(e), t))
  {
    if m.Form? {
      if m.tag.Formula? { SubstitutionsCompose(m.tag.sort, m.tag.clauses, Free(d), r, Free(e), t); }
      SubstDimTwice(m.a, d, r, e, t);
      SubstDimTwice(m.b, d, r, e, t);
      SubstDimTwice(m.c, d, r, e, t);
    }
  }

  // ---- Endpoints and faces -----------------------------------------------------------------

  /** An endpoint of the interval: 1, or 0. */
  function End(endpoint: bool): set<Clause<Atom>> { if endpoint then {Top()} else {} }

  ghost function AtEnd(m: Form, d: nat, endpoint: bool): Form { SubstDim(m, d, End(endpoint)) }

  lemma EndSubstituted(endpoint: bool, e: nat, t: set<Clause<Atom>>)
    ensures SubstituteInterval(End(endpoint), Free(e), t) == End(endpoint)
  {
    assert !Mentions(End(endpoint), Free(e));
    SubstituteUnmentioned(Interval, End(endpoint), Free(e), t);
  }

  /** An endpoint taken twice is taken once: the dimension is gone. */
  lemma AtEndTwice(m: Form, d: nat, endpoint: bool, other: bool)
    ensures AtEnd(AtEnd(m, d, endpoint), d, other) == AtEnd(m, d, endpoint)
  {
    SubstDimTwice(m, d, End(endpoint), d, End(other));
    EndSubstituted(endpoint, d, End(other));
  }

  /** Endpoints of different dimensions are taken in any order. */
  lemma AtEndSwap(m: Form, d: nat, endpoint: bool, e: nat, other: bool)
    requires d != e
    ensures AtEnd(AtEnd(m, d, endpoint), e, other) == AtEnd(AtEnd(m, e, other), d, endpoint)
  {
    SubstDimTwice(m, d, End(endpoint), e, End(other));
    EndSubstituted(endpoint, e, End(other));
  }

  lemma JoinKeeps(sort: Sort, s: set<Clause<Atom>>, t: set<Clause<Atom>>, r: Clause<Atom>)
    requires r in JoinOf(sort, s, t)
    ensures r in s || r in t
  {
  }

  lemma ReplacedClauseMentions(sort: Sort, c: Clause<Atom>, d: Atom, one: set<Clause<Atom>>, zero: set<Clause<Atom>>,
                               x: Atom)
    requires Mentions(ReplacedClause(sort, c, d, one, zero), x)
    ensures (x != d && (x in c.positive || x in c.negative)) || Mentions(one, x) || Mentions(zero, x)
  {
    var rest := Reduce(sort, {Without(c, d)});
    var first := if d in c.positive then MeetOf(sort, rest, one) else rest;
    MeetMentions(sort, first, zero, x);
    MeetMentions(sort, rest, one, x);
  }

  /** Replacing a dimension mentions only what was mentioned besides it, or comes in. */
  lemma {:induction false} ReplacedMentions(sort: Sort, s: set<Clause<Atom>>, d: Atom, one: set<Clause<Atom>>,
                                            zero: set<Clause<Atom>>, x: Atom)
    requires Mentions(Replaced(sort, s, d, one, zero), x)
    ensures (x != d && Mentions(s, x)) || Mentions(one, x) || Mentions(zero, x)
  {
    if s != {} {
      var c :| c in s && Replaced(sort, s, d, one, zero)
        == JoinOf(sort, Replaced(sort, s - {c}, d, one, zero), ReplacedClause(sort, c, d, one, zero));
      var left, right := Replaced(sort, s - {c}, d, one, zero), ReplacedClause(sort, c, d, one, zero);
      var r :| r in Replaced(sort, s, d, one, zero) && (x in r.positive || x in r.negative);
      assert r in JoinOf(sort, left, right);
      JoinKeeps(sort, left, right, r);
      if r in left {
        ReplacedMentions(sort, s - {c}, d, one, zero, x);
      } else {
        assert Mentions(right, x);
        ReplacedClauseMentions(sort, c, d, one, zero, x);
      }
    }
  }

  lemma MeetMentions(sort: Sort, s: set<Clause<Atom>>, t: set<Clause<Atom>>, x: Atom)
    ensures Mentions(MeetOf(sort, s, t), x) ==> Mentions(s, x) || Mentions(t, x)
  {
    if Mentions(MeetOf(sort, s, t), x) {
      var r :| r in MeetOf(sort, s, t) && (x in r.positive || x in r.negative);
      var a, b :| a in s && b in t && r == Both(a, b);
    }
  }

  /** An endpoint's reversal and faces are constants. */
  lemma EndConstant(endpoint: bool)
    ensures Dual(Interval, End(endpoint)) == End(!endpoint)
    ensures AtOne(End(endpoint)) == End(endpoint) && AtZero(End(endpoint)) == End(!endpoint)
  {
    var e: set<Clause<Atom>> := End(endpoint);
    var none := Generic<Atom>(Top());
    assert forall v: Point<Atom> :: Holds(End(true), v) by { assert Top<Atom>() in End(true); }
    DualNormal(Interval, e);
    forall v: Point<Atom> ensures Holds(Dual(Interval, e), v) <==> Holds(End(!endpoint), v) {
      DualHolds(Interval, e, v);
    }
    Canonical(Interval, Dual(Interval, e), End(!endpoint));
    EndpointHolds(e, true, none);
    EndpointHolds(e, false, none);
    forall v: Point<Atom> | Admits(Face, v)
      ensures Holds(AtOne(e), v) <==> Holds(e, v)
      ensures Holds(AtZero(e), v) <==> Holds(End(!endpoint), v)
    {
      EndpointHolds(e, true, v);
      EndpointHolds(e, false, v);
    }
    Canonical(Face, AtOne(e), e);
    Canonical(Face, AtZero(e), End(!endpoint));
  }

  lemma TagAtEnd(tag: Tag, d: nat, endpoint: bool)
    ensures !TagMentions(SubstTag(tag, d, End(endpoint)), d)
    ensures forall e :: TagMentions(SubstTag(tag, d, End(endpoint)), e) ==> TagMentions(tag, e)
  {
    if tag.Formula? {
      forall e | TagMentions(SubstTag(tag, d, End(endpoint)), e) ensures e != d && TagMentions(tag, e) {
        EndConstant(endpoint);
        var value := End(endpoint);
        ReplacedMentions(tag.sort, tag.clauses, Free(d), if tag.sort == Interval then value else AtOne(value),
                         if tag.sort == Interval then Dual(Interval, value) else AtZero(value), Free(e));
      }
    }
  }

  lemma {:induction false} AtEndDims(m: Form, d: nat, endpoint: bool)
    ensures !DimFree(AtEnd(m, d, endpoint), d)
    ensures forall e :: DimFree(AtEnd(m, d, endpoint), e) ==> DimFree(m, e)
  {
    if m.Form? {
      TagAtEnd(m.tag, d, endpoint);
      AtEndDims(m.a, d, endpoint);
      AtEndDims(m.b, d, endpoint);
      AtEndDims(m.c, d, endpoint);
    }
  }

  /** The form at one dimension of a face, which may have either endpoint, both or
      neither; the first endpoint wins. */
  ghost function AtDimension(m: Form, face: Clause<nat>, d: nat): Form {
    var one := if d in face.positive then AtEnd(m, d, true) else m;
    if d in face.negative then AtEnd(one, d, false) else one
  }

  /** The form restricted to a face, for the dimensions under `n`. */
  ghost function Restricted(m: Form, face: Clause<nat>, n: nat): Form {
    if n == 0 then m else AtDimension(Restricted(m, face, n - 1), face, n - 1)
  }

  predicate Fixes(face: Clause<nat>, d: nat) { d in face.positive || d in face.negative }

  lemma AtDimensionDims(m: Form, face: Clause<nat>, d: nat, e: nat)
    requires DimFree(AtDimension(m, face, d), e)
    ensures DimFree(m, e) && !(e == d && Fixes(face, d))
  {
    AtEndDims(m, d, true);
    AtEndDims(m, d, false);
    AtEndDims(AtEnd(m, d, true), d, false);
  }

  /** A restricted form mentions no dimension that the face fixes. */
  lemma {:induction false} RestrictedDims(m: Form, face: Clause<nat>, n: nat, d: nat)
    requires DimFree(Restricted(m, face, n), d)
    ensures DimFree(m, d) && !(d < n && Fixes(face, d))
  {
    if n > 0 {
      AtDimensionDims(Restricted(m, face, n - 1), face, n - 1, d);
      RestrictedDims(m, face, n - 1, d);
    }
  }

  lemma AtEndDimension(m: Form, face: Clause<nat>, e: nat, d: nat, endpoint: bool)
    requires d != e
    ensures AtEnd(AtDimension(m, face, e), d, endpoint) == AtDimension(AtEnd(m, d, endpoint), face, e)
  {
    AtEndSwap(m, e, true, d, endpoint);
    AtEndSwap(m, e, false, d, endpoint);
    AtEndSwap(AtEnd(m, e, true), e, false, d, endpoint);
  }

  lemma {:induction false} AtEndRestricted(m: Form, face: Clause<nat>, n: nat, d: nat, endpoint: bool)
    requires d >= n
    ensures AtEnd(Restricted(m, face, n), d, endpoint) == Restricted(AtEnd(m, d, endpoint), face, n)
  {
    if n > 0 {
      AtEndRestricted(m, face, n - 1, d, endpoint);
      AtEndDimension(Restricted(m, face, n - 1), face, n - 1, d, endpoint);
    }
  }

  function Joined(a: Clause<nat>, b: Clause<nat>): Clause<nat> {
    Clause(a.positive + b.positive, a.negative + b.negative)
  }

  lemma AtDimensionRestricted(m: Form, face: Clause<nat>, n: nat, other: Clause<nat>, d: nat)
    requires d >= n
    ensures AtDimension(Restricted(m, face, n), other, d) == Restricted(AtDimension(m, other, d), face, n)
  {
    AtEndRestricted(m, face, n, d, true);
    AtEndRestricted(m, face, n, d, false);
    AtEndRestricted(AtEnd(m, d, true), face, n, d, false);
  }

  lemma AtDimensionJoined(m: Form, a: Clause<nat>, b: Clause<nat>, d: nat)
    requires !(d in a.negative && d in b.positive)
    ensures AtDimension(AtDimension(m, a, d), b, d) == AtDimension(m, Joined(a, b), d)
  {
    AtEndTwice(m, d, true, true);
    AtEndTwice(m, d, true, false);
    AtEndTwice(m, d, false, false);
  }

  /** Restricting to one face and then to another is restricting to their overlap,
      unless the first fixes a dimension at 0 that the second has at 1. */
  lemma {:induction false} RestrictedTwice(m: Form, a: Clause<nat>, b: Clause<nat>, n: nat)
    requires a.negative !! b.positive
    ensures Restricted(Restricted(m, a, n), b, n) == Restricted(m, Joined(a, b), n)
  {
    if n > 0 {
      var d := n - 1;
      AtDimensionRestricted(Restricted(m, a, d), b, d, a, d);
      RestrictedTwice(m, a, b, d);
      AtDimensionJoined(Restricted(m, Joined(a, b), d), a, b, d);
    }
  }

  // ---- What substitution means, point by point ------------------------------------------------------

  /** A variable replaced by itself stays, and its own form replaced by a value is that
      value. */
  lemma {:induction false} SubstTermUnit(m: Form, x: nat, v: Form)
    requires VariablesPlain(m)
    ensures SubstTerm(m, x, Variable(Free(x))) == m
    ensures SubstTerm(Variable(Free(x)), x, v) == v
  {
    if m.Form? && m.kind != VAR {
      SubstTermUnit(m.a, x, v);
      SubstTermUnit(m.b, x, v);
      SubstTermUnit(m.c, x, v);
    }
  }

  /** The same sort of formula, with the value at each point that the other has at the moved
      point; and the same payload of any other kind. */
  ghost predicate TagMoves(s: Tag, t: Tag, move: Point<Atom> -> Point<Atom>) {
    if s.Formula? then
      t.Formula? && t.sort == s.sort && forall v :: Admits(s.sort, v) ==>
        (Holds(t.clauses, v) <==> Holds(s.clauses, move(v)))
    else t == s
  }

  /** The same nodes, each with its formula moved. */
  ghost predicate FormMoves(m: Form, n: Form, move: Point<Atom> -> Point<Atom>) {
    if m.Absent? || n.Absent? then m == n
    else
      m.kind == n.kind && TagMoves(m.tag, n.tag, move) && FormMoves(m.a, n.a, move) && FormMoves(m.b, n.b, move)
      && FormMoves(m.c, n.c, move)
  }

  /** So moving determines the form, once its formulas are in normal form. */
  lemma {:induction false} MovesDetermine(m: Form, n: Form, n': Form, move: Point<Atom> -> Point<Atom>)
    requires FormMoves(m, n, move) && FormMoves(m, n', move) && Canonic(n) && Canonic(n')
    ensures n == n'
  {
    if m.Form? && n.Form? && n'.Form? {
      if m.tag.Formula? { Canonical(m.tag.sort, n.tag.clauses, n'.tag.clauses); }
      MovesDetermine(m.a, n.a, n'.a, move);
      MovesDetermine(m.b, n.b, n'.b, move);
      MovesDetermine(m.c, n.c, n'.c, move);
    }
  }

  lemma {:induction false} MovesAlike(m: Form, n: Form, move: Point<Atom> -> Point<Atom>,
                                      move': Point<Atom> -> Point<Atom>)
    requires FormMoves(m, n, move) && forall v :: move(v) == move'(v)
    ensures FormMoves(m, n, move')
  {
    if m.Form? && n.Form? {
      MovesAlike(m.a, n.a, move, move');
      MovesAlike(m.b, n.b, move, move');
      MovesAlike(m.c, n.c, move, move');
    }
  }

  lemma {:induction false} MovesItself(m: Form)
    ensures FormMoves(m, m, v => v)
  {
    if m.Form? {
      MovesItself(m.a);
      MovesItself(m.b);
      MovesItself(m.c);
    }
  }

  lemma {:induction false} MovesTwice(m: Form, n: Form, r: Form, first: Point<Atom> -> Point<Atom>,
                                      second: Point<Atom> -> Point<Atom>)
    requires FormMoves(m, n, first) && FormMoves(n, r, second)
    requires forall sort, v :: Admits(sort, v) ==> Admits(sort, second(v))
    ensures FormMoves(m, r, v => first(second(v)))
  {
    if m.Form? && n.Form? && r.Form? {
      MovesTwice(m.a, n.a, r.a, first, second);
      MovesTwice(m.b, n.b, r.b, first, second);
      MovesTwice(m.c, n.c, r.c, first, second);
    }
  }

  /** The point at which the dimension `d` is `s`: `d` is 1 where `s` is, and 0 where its
      reversal is 1. */
  ghost function Replacing(d: nat, s: set<Clause<Atom>>): Point<Atom> -> Point<Atom> {
    v => At(v, Free(d), Holds(s, v), !Holds(s, Opposite(v)))
  }

  /** Every formula of the substituted form is the original's, where the dimension is the
      value. */
  lemma {:induction false} SubstDimMoves(m: Form, d: nat, s: set<Clause<Atom>>)
    ensures FormMoves(m, SubstDim(m, d, s), Replacing(d, s))
  {
    if m.Form? {
      if m.tag.Formula? {
        forall v | Admits(m.tag.sort, v)
          ensures Holds(SubstTag(m.tag, d, s).clauses, v) <==> Holds(m.tag.clauses, Replacing(d, s)(v))
        {
          SubstitutedHolds(m.tag.sort, m.tag.clauses, Free(d), s, v);
        }
      }
      SubstDimMoves(m.a, d, s);
      SubstDimMoves(m.b, d, s);
      SubstDimMoves(m.c, d, s);
    }
  }

  /** The point with `d` at 1, or at 0. */
  ghost function Ending(d: nat, endpoint: bool): Point<Atom> -> Point<Atom> {
    v => At(v, Free(d), endpoint, !endpoint)
  }

  lemma AtEndMoves(m: Form, d: nat, endpoint: bool)
    ensures FormMoves(m, AtEnd(m, d, endpoint), Ending(d, endpoint))
  {
    SubstDimMoves(m, d, End(endpoint));
    assert Top<Atom>() in End(true);
    forall v: Point<Atom> ensures Replacing(d, End(endpoint))(v) == Ending(d, endpoint)(v) {
      assert ClauseHolds(Top(), v) && ClauseHolds(Top(), Opposite(v));
    }
    MovesAlike(m, AtEnd(m, d, endpoint), Replacing(d, End(endpoint)), Ending(d, endpoint));
  }

  /** The point with every dimension below `n` that the face fixes at its end: at 1 for
      `d=1`, and at 0 for `d=0` alone. */
  ghost function Facing(face: Clause<nat>, n: nat): Point<Atom> -> Point<Atom> {
    (v: Point<Atom>) => OnFace(face, n, v)
  }

  ghost function OnFace(face: Clause<nat>, n: nat, v: Point<Atom>): Point<Atom> {
    Point(iset x: Atom | if FixedAtom(face, n, x) then x.name in face.positive else x in v.one,
          iset x: Atom | if FixedAtom(face, n, x) then x.name !in face.positive else x in v.zero)
  }

  predicate FixedAtom(face: Clause<nat>, n: nat, x: Atom) { x.Free? && x.name < n && Fixes(face, x.name) }

  lemma EndingAdmits(d: nat, endpoint: bool)
    ensures forall sort, v :: Admits(sort, v) ==> Admits(sort, Ending(d, endpoint)(v))
  {
  }

  lemma {:induction false} RestrictedMoves(m: Form, face: Clause<nat>, n: nat)
    ensures FormMoves(m, Restricted(m, face, n), Facing(face, n))
  {
    if n == 0 {
      MovesItself(m);
      MovesAlike(m, m, v => v, Facing(face, 0));
    } else {
      var d, r := n - 1, Restricted(m, face, n - 1);
      RestrictedMoves(m, face, d);
      if d in face.positive {
        AtEndTwice(r, d, true, false);
        DimensionMoves(m, r, face, d, true);
      } else if d in face.negative {
        DimensionMoves(m, r, face, d, false);
      } else {
        MovesAlike(m, r, Facing(face, d), Facing(face, n));
      }
    }
  }

  lemma OnFaceNext(face: Clause<nat>, d: nat, endpoint: bool, v: Point<Atom>)
    requires Fixes(face, d) && (endpoint <==> d in face.positive)
    ensures OnFace(face, d, At(v, Free(d), endpoint, !endpoint)) == OnFace(face, d + 1, v)
  {
    var w := At(v, Free(d), endpoint, !endpoint);
    assert OnFace(face, d, w).one == OnFace(face, d + 1, v).one;
    assert OnFace(face, d, w).zero == OnFace(face, d + 1, v).zero;
  }

  lemma DimensionMoves(m: Form, r: Form, face: Clause<nat>, d: nat, endpoint: bool)
    requires FormMoves(m, r, Facing(face, d)) && Fixes(face, d) && (endpoint <==> d in face.positive)
    ensures FormMoves(m, AtEnd(r, d, endpoint), Facing(face, d + 1))
  {
    AtEndMoves(r, d, endpoint);
    EndingAdmits(d, endpoint);
    var both := v => Facing(face, d)(Ending(d, endpoint)(v));
    MovesTwice(m, r, AtEnd(r, d, endpoint), Facing(face, d), Ending(d, endpoint));
    forall v: Point<Atom> ensures both(v) == Facing(face, d + 1)(v) {
      OnFaceNext(face, d, endpoint, v);
    }
    MovesAlike(m, AtEnd(r, d, endpoint), both, Facing(face, d + 1));
  }
}
