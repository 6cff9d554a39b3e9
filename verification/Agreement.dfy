/** What it means that the pieces of a closed judgement agree, point by point. A point of
    the faces says which dimensions are at an end; a reading gives each term its value at a
    point. If syntactic sameness, restriction to a clause that holds at the point and the
    equality judgements of the store are true of the reading there, then so is the
    agreement of the pieces, wherever their faces meet. */
module Agreement {
  import opened Lattice
  import opened Formulas
  import opened Contexts
  import opened Systems
  import opened Rules
  import opened GlueTerms

  // ---- Readings ------------------------------------------------------------------------------------

  /** A reading of terms at a point of which the store's judgements up to `id` are true. */
  ghost predicate TrueAt<V(!new)>(l: Language, facts: seq<Fact>, id: nat, read: Term -> V, v: Point<Dim>)
    requires id <= |facts|
  {
    && (forall s, t :: l.same(s, t) ==> read(s) == read(t))
    && (forall t, c :: ClauseHolds(c, v) ==> read(l.restrict(t, c)) == read(t))
    && (forall e :: 0 < e < id && facts[e].kind == Equality ==> read(facts[e].term) == read(facts[e].other))
  }

  /** Terms shown to be equal on a clause have one value where it holds. */
  lemma ShownTrue<V(!new)>(l: Language, facts: seq<Fact>, id: nat, later: Term, earlier: Term, face: DimClause,
                           read: Term -> V, v: Point<Dim>)
    requires id <= |facts| && Shown(l, facts, id, later, earlier, face)
    requires TrueAt(l, facts, id, read, v) && ClauseHolds(face, v)
    ensures read(later) == read(earlier)
  {
    var e :| 0 < e < id && e < |facts| && Equates(l, facts[e], later, earlier, face);
    assert read(facts[e].term) == read(l.restrict(later, face));
    assert read(facts[e].other) == read(l.restrict(earlier, face));
  }

  lemma AgreeTrue<V(!new)>(l: Language, facts: seq<Fact>, id: nat, a: Tube, b: Tube, read: Term -> V, v: Point<Dim>)
    requires id <= |facts| && TubesAgree(l, facts, id, a, b) && TrueAt(l, facts, id, read, v)
    requires Admits(Face, v) && Holds(SetOf(a.face), v) && Holds(SetOf(b.face), v)
    ensures read(a.term) == read(b.term)
  {
    var i, j := MeetingAt(a.face, b.face, v);
    OverlapHolds(b.face[j], a.face[i], v);
    ShownTrue(l, facts, id, b.term, a.term, Overlap(b.face[j], a.face[i]), read, v);
  }

  // ---- Compositions and Glue types -------------------------------------------------------------------

  /** The tubes of a closed composition have one value at every point where two of their
      faces meet. */
  lemma ClosedTubesEqual<V(!new)>(l: Language, facts: seq<Fact>, id: nat, i: nat, j: nat, read: Term -> V,
                                  v: Point<Dim>)
    requires FactsOk(l, facts) && 0 < id < |facts| && facts[id].kind == Typing
    requires facts[id].how.rule in {CompRule, HCompRule} && TrueAt(l, facts, id, read, v) && Admits(Face, v)
    ensures facts[id].term.Comp? || facts[id].term.HComp?
    ensures var tubes := facts[id].term.tubes;
            i < |tubes| && j < |tubes| && Holds(SetOf(tubes[i].face), v) && Holds(SetOf(tubes[j].face), v) ==>
              read(tubes[i].term) == read(tubes[j].term)
  {
    ClosedTubesAgree(l, facts, id, i, j);
    ClosedTubesAgree(l, facts, id, j, i);
    var tubes := facts[id].term.tubes;
    if i < |tubes| && j < |tubes| && Holds(SetOf(tubes[i].face), v) && Holds(SetOf(tubes[j].face), v) {
      if i < j { AgreeTrue(l, facts, id, tubes[i], tubes[j], read, v); }
      if j < i { AgreeTrue(l, facts, id, tubes[j], tubes[i], read, v); }
    }
  }

  /** And each tube starts at the base: its 0 end has the base's value on its face. */
  lemma ClosedTubesStart<V(!new)>(l: Language, facts: seq<Fact>, id: nat, i: nat, read: Term -> V, v: Point<Dim>)
    requires FactsOk(l, facts) && 0 < id < |facts| && facts[id].kind == Typing
    requires facts[id].how.rule in {CompRule, HCompRule} && TrueAt(l, facts, id, read, v)
    ensures facts[id].term.Comp? || facts[id].term.HComp?
    ensures var t := facts[id].term;
            i < |t.tubes| && Holds(SetOf(t.tubes[i].face), v) ==>
              read(l.endpoint(t.tubes[i].term, t.dimension, false)) == read(t.base)
  {
    ClosedTubesAgree(l, facts, id, i, i);
    assert FactOk(l, facts, id);
    var t := facts[id].term;
    if i < |t.tubes| && Holds(SetOf(t.tubes[i].face), v) {
      var tube := t.tubes[i];
      assert |TubeFaces(t.tubes)[i]| <= 1;
      assert TubeFits(l, facts, id, t.dimension, t.family, t.base, tube);
      var c :| c in SetOf(tube.face) && ClauseHolds(c, v);
      assert c == tube.face[0];
      var e :| 0 < e < id && e < |facts|
          && Starts(l, facts[e], l.endpoint(tube.term, t.dimension, false), l.restrict(t.base, tube.face[0]));
      assert read(facts[e].term) == read(facts[e].other);
    }
  }

  /** What each tube of a closed composition was checked for: it is restricted to its one
      clause, which leaves the direction free, and has the family's type there. */
  lemma ClosedTubesFit(l: Language, facts: seq<Fact>, id: nat, i: nat)
    requires FactsOk(l, facts) && 0 < id < |facts| && facts[id].kind == Typing
    requires facts[id].how.rule in {CompRule, HCompRule}
    ensures facts[id].term.Comp? || facts[id].term.HComp?
    ensures var t := facts[id].term;
            i < |t.tubes| && t.tubes[i].face != [] ==>
              var c, u := t.tubes[i].face[0], t.tubes[i].term;
              && t.tubes[i].face == [c] && c.positive !! c.negative
              && t.dimension !in c.positive && t.dimension !in c.negative
              && (forall d :: d in c.positive || d in c.negative ==> d !in l.dims(u))
              && exists e :: 0 < e < id && facts[e].kind == Typing && facts[e].term == u
                             && l.same(facts[e].typ, l.restrict(t.family, c))
  {
    assert FactOk(l, facts, id);
    var t := facts[id].term;
    if i < |t.tubes| && t.tubes[i].face != [] {
      assert Single(TubeFaces(t.tubes)[i]);
      assert TubeFits(l, facts, id, t.dimension, t.family, t.base, t.tubes[i]);
      var c := t.tubes[i].face[0];
      var e :| 0 < e < id && e < |facts| && InFamily(l, facts[e], t.tubes[i].term, l.restrict(t.family, c));
      assert 0 < e < id && facts[e].kind == Typing && facts[e].term == t.tubes[i].term;
    }
  }

  /** And each piece of a closed Glue type: its type and equivalence are restricted to its one
      clause, and the equivalence is from the type to the base there. */
  lemma ClosedPiecesFit(l: Language, facts: seq<Fact>, id: nat, i: nat)
    requires FactsOk(l, facts) && 0 < id < |facts| && facts[id].kind == Typing && facts[id].how.rule == GlueRule
    ensures facts[id].term.Glue?
    ensures var t := facts[id].term;
            i < |t.pieces| && t.pieces[i].face != [] ==>
              var c, p := t.pieces[i].face[0], t.pieces[i];
              && p.face == [c] && c.positive !! c.negative
              && (forall d :: d in c.positive || d in c.negative ==> d !in l.dims(p.typ) && d !in l.dims(p.equivalence))
              && exists e :: 0 < e < id && facts[e].kind == Typing && facts[e].term == p.equivalence
                             && l.same(facts[e].typ, l.equivalences(p.typ, l.restrict(t.base, c)))
  {
    assert FactOk(l, facts, id);
    var t := facts[id].term;
    if i < |t.pieces| && t.pieces[i].face != [] {
      var p := t.pieces[i];
      assert Single(PieceFaces(t.pieces)[i]);
      assert PieceFits(l, facts, id, t.base, p);
      var e :| 0 < e < id && e < |facts|
          && InFamily(l, facts[e], p.equivalence, l.equivalences(p.typ, l.restrict(t.base, p.face[0])));
      assert 0 < e < id && facts[e].kind == Typing && facts[e].term == p.equivalence;
    }
  }

  /** The pieces of a closed Glue type have one type and one equivalence at every point where
      two of their faces meet. */
  lemma ClosedPiecesEqual<V(!new)>(l: Language, facts: seq<Fact>, id: nat, i: nat, j: nat, read: Term -> V,
                                   v: Point<Dim>)
    requires FactsOk(l, facts) && 0 < id < |facts| && facts[id].kind == Typing && facts[id].how.rule == GlueRule
    requires TrueAt(l, facts, id, read, v) && Admits(Face, v)
    ensures facts[id].term.Glue?
    ensures var pieces := facts[id].term.pieces;
            i < j < |pieces| && Holds(SetOf(pieces[i].face), v) && Holds(SetOf(pieces[j].face), v) ==>
              read(pieces[i].typ) == read(pieces[j].typ) && read(pieces[i].equivalence) == read(pieces[j].equivalence)
  {
    ClosedPiecesAgree(l, facts, id, i, j);
    var pieces := facts[id].term.pieces;
    if i < j < |pieces| && Holds(SetOf(pieces[i].face), v) && Holds(SetOf(pieces[j].face), v) {
      var p, q := pieces[i], pieces[j];
      var a, b := MeetingAt(p.face, q.face, v);
      OverlapHolds(q.face[b], p.face[a], v);
      ShownTrue(l, facts, id, q.typ, p.typ, Overlap(q.face[b], p.face[a]), read, v);
      ShownTrue(l, facts, id, q.equivalence, p.equivalence, Overlap(q.face[b], p.face[a]), read, v);
    }
  }

  // ---- Glue terms --------------------------------------------------------------------------------------

  /** The condition for values to agree, by points: where two faces meet at all, their first
      conjunctions do somewhere. */
  lemma FirstsMeetHolds(pieces: seq<Piece>)
    ensures FirstsMeet(pieces) <==>
              forall i, j :: 0 <= i < j < |pieces| && FacesShare(pieces[i].face, pieces[j].face) ==>
                FirstsShare(pieces[i].face, pieces[j].face)
  {
    forall i, j | 0 <= i < j < |pieces|
      ensures FacesShare(pieces[i].face, pieces[j].face) <==> Joint(pieces[i].face, pieces[j].face)
      ensures FirstsShare(pieces[i].face, pieces[j].face) <==> Meets(pieces[i].face, pieces[j].face)
    {
      JointHolds(pieces[i].face, pieces[j].face);
      MeetsHolds(pieces[i].face, pieces[j].face);
    }
  }

  /** Under that condition the values of a closed Glue term are one wherever two faces meet. */
  lemma ClosedValuesEqual<V(!new)>(l: Language, facts: seq<Fact>, id: nat, glue: Term, i: nat, j: nat, read: Term -> V,
                                   v: Point<Dim>)
    requires ClosedAt(l, facts, id, glue) && glue.Glue? && FirstsMeet(glue.pieces) && i < j < |glue.pieces|
    requires TrueAt(l, facts, id, read, v) && Admits(Face, v)
    requires Holds(SetOf(glue.pieces[i].face), v) && Holds(SetOf(glue.pieces[j].face), v)
    ensures j < |facts[id].term.tubes| && read(facts[id].term.tubes[i].term) == read(facts[id].term.tubes[j].term)
  {
    ClosedValues(l, facts, id, glue);
    ClosedValuesAgree(l, facts, id, glue, i, j);
    var t := facts[id].term;
    assert ValueFits(l, facts, id, t.base, glue.pieces[i], t.tubes[i]);
    assert ValueFits(l, facts, id, t.base, glue.pieces[j], t.tubes[j]);
    AgreeTrue(l, facts, id, t.tubes[i], t.tubes[j], read, v);
  }

  /** With one conjunction on each face, a value's image is the base all over its face. */
  lemma ClosedBaseEqual<V(!new)>(l: Language, facts: seq<Fact>, id: nat, glue: Term, i: nat, read: Term -> V,
                                 v: Point<Dim>)
    requires ClosedAt(l, facts, id, glue) && glue.Glue? && OneConjunction(glue.pieces) && i < |glue.pieces|
    requires TrueAt(l, facts, id, read, v) && Holds(SetOf(glue.pieces[i].face), v)
    ensures i < |facts[id].term.tubes|
    ensures read(l.image(glue.pieces[i].equivalence, facts[id].term.tubes[i].term)) == read(facts[id].term.base)
  {
    ClosedBaseAgrees(l, facts, id, glue, i);
    var t, p := facts[id].term, glue.pieces[i];
    var c :| c in SetOf(p.face) && ClauseHolds(c, v);
    var j :| 0 <= j < |p.face| && p.face[j] == c;
    assert ImageShown(l, facts, id, t, p, t.tubes[i].term, p.face[j]);
    var e :| 0 < e < id && Starts(l, facts[e], l.image(p.equivalence, t.tubes[i].term), l.restrict(t.base, c));
    assert read(facts[e].term) == read(facts[e].other);
  }
}
