/** instruction_glue.c: when a Glue term closes, do its values agree with its base and with
    each other? The instructions read the first conjunction of each face of the type. A
    type built piece by piece has one conjunction on each face at most; but substitution
    can turn one conjunction into several, and any judgement of a Glue type will do. So
    the answer depends on the type, and here is exactly how. */
module GlueTerms {
  import opened Lattice
  import opened Formulas
  import opened Systems
  import opened Rules

  /** A closed Glue term of the given type. */
  ghost predicate ClosedAt(l: Language, facts: seq<Fact>, id: nat, glue: Term) {
    && FactsOk(l, facts) && 0 < id < |facts| && facts[id].kind == Typing && facts[id].how.rule == GlueTermRule
    && facts[id].term.GlueTerm? && facts[id].term.glue == glue
  }

  /** A value's image was shown to be the base on a conjunction. */
  ghost predicate ImageShown(l: Language, facts: seq<Fact>, id: nat, t: Term, p: Piece, value: Term, clause: DimClause)
    requires id < |facts| && t.GlueTerm?
  {
    exists e :: 0 < e < id && Starts(l, facts[e], l.image(p.equivalence, value), l.restrict(t.base, clause))
  }

  /** A value's image was shown to be the base on every conjunction of its face. */
  ghost predicate BaseAgrees(l: Language, facts: seq<Fact>, id: nat, i: nat)
    requires id < |facts| && facts[id].term.GlueTerm? && facts[id].term.glue.Glue?
    requires i < |facts[id].term.tubes| && i < |facts[id].term.glue.pieces|
  {
    var t, p := facts[id].term, facts[id].term.glue.pieces[i];
    forall j :: 0 <= j < |p.face| ==> ImageShown(l, facts, id, t, p, t.tubes[i].term, p.face[j])
  }

  // ---- Conditions on the type, for its pieces -------------------------------------------------

  /** No two pieces ask for an overlap that the instructions refuse to show. */
  predicate Closable(pieces: seq<Piece>) {
    forall i, j :: 0 <= i < j < |pieces| && Meets(pieces[i].face, pieces[j].face) ==>
      i < OVERLAPS && |pieces[i].face| == |pieces[j].face| == 1
  }

  /** No face has two conjunctions. */
  predicate OneConjunction(pieces: seq<Piece>) { forall i :: 0 <= i < |pieces| ==> |pieces[i].face| <= 1 }

  /** Where two faces meet, their first conjunctions do. */
  predicate FirstsMeet(pieces: seq<Piece>) {
    forall i, j :: 0 <= i < j < |pieces| && Joint(pieces[i].face, pieces[j].face) ==>
      Meets(pieces[i].face, pieces[j].face)
  }

  /** A face's conjunctions are distinct, as in every formula. */
  predicate DistinctFaces(pieces: seq<Piece>) {
    forall i, j, k :: 0 <= i < |pieces| && 0 <= j < k < |pieces[i].face| ==> pieces[i].face[j] != pieces[i].face[k]
  }

  // ---- What every closed Glue term has ----------------------------------------------------------

  /** A closed Glue term has a value for each piece of its type, on the piece's face and in
      its type, and the pairs that the instructions look at were shown. */
  lemma ClosedValues(l: Language, facts: seq<Fact>, id: nat, glue: Term)
    requires ClosedAt(l, facts, id, glue)
    ensures glue.Glue? && |facts[id].term.tubes| == |glue.pieces|
    ensures forall i :: 0 <= i < |glue.pieces| ==>
              ValueFits(l, facts, id, facts[id].term.base, glue.pieces[i], facts[id].term.tubes[i])
    ensures TubesOk(l, facts, id, facts[id].term.tubes, {})
  {
    assert FactOk(l, facts, id);
  }

  /** A type with an overlap that cannot be shown has no closed Glue term. */
  lemma ClosedIsClosable(l: Language, facts: seq<Fact>, id: nat, glue: Term)
    requires ClosedAt(l, facts, id, glue)
    ensures glue.Glue? && Closable(glue.pieces)
  {
    ClosedValues(l, facts, id, glue);
    var tubes := facts[id].term.tubes;
    forall i, j | 0 <= i < j < |glue.pieces| && Meets(glue.pieces[i].face, glue.pieces[j].face)
      ensures i < OVERLAPS && |glue.pieces[i].face| == |glue.pieces[j].face| == 1
    {
      assert ValueFits(l, facts, id, facts[id].term.base, glue.pieces[i], tubes[i]);
      assert ValueFits(l, facts, id, facts[id].term.base, glue.pieces[j], tubes[j]);
      assert TubePair(l, facts, id, i, tubes[i], tubes[j]);
    }
  }

  /** If no face of the type has two conjunctions, the values agree with the base on all of
      their faces. */
  lemma ClosedBaseAgrees(l: Language, facts: seq<Fact>, id: nat, glue: Term, i: nat)
    requires ClosedAt(l, facts, id, glue) && glue.Glue? && OneConjunction(glue.pieces) && i < |glue.pieces|
    ensures i < |facts[id].term.tubes| && BaseAgrees(l, facts, id, i)
  {
    ClosedValues(l, facts, id, glue);
    var t, p := facts[id].term, glue.pieces[i];
    assert ValueFits(l, facts, id, t.base, p, t.tubes[i]);
    forall j | 0 <= j < |p.face| ensures ImageShown(l, facts, id, t, p, t.tubes[i].term, p.face[j]) { assert j == 0; }
  }

  /** If the first conjunctions meet where the faces do, every two values agree wherever
      their faces meet. */
  lemma ClosedValuesAgree(l: Language, facts: seq<Fact>, id: nat, glue: Term, i: nat, j: nat)
    requires ClosedAt(l, facts, id, glue) && glue.Glue? && FirstsMeet(glue.pieces) && i < j < |glue.pieces|
    ensures |facts[id].term.tubes| == |glue.pieces|
    ensures TubesAgree(l, facts, id, facts[id].term.tubes[i], facts[id].term.tubes[j])
  {
    ClosedValues(l, facts, id, glue);
    var tubes := facts[id].term.tubes;
    assert ValueFits(l, facts, id, facts[id].term.base, glue.pieces[i], tubes[i]);
    assert ValueFits(l, facts, id, facts[id].term.base, glue.pieces[j], tubes[j]);
    assert TubePair(l, facts, id, i, tubes[i], tubes[j]);
    if Meets(tubes[i].face, tubes[j].face) { return; }
    assert !Joint(glue.pieces[i].face, glue.pieces[j].face);
  }

  // ---- A run that closes and shows no more than it is asked -------------------------------------

  /** A language in which a restriction, an image and a handle are never the same term. */
  function Plain(): Language {
    Language((a, b) => a == b, (t, c) => Trans(0, t, [c], t), (t, d, e) => t, t => {}, (a, b) => a,
             (e, v) => HComp(0, e, [], v), t => true, (a, b) => a, t => true)
  }

  function Value(i: nat): Term { Handle(i) }

  function Base(): Term { Handle(0) }

  function Values(pieces: seq<Piece>, n: nat): seq<Tube>
    requires n <= |pieces|
  {
    seq(n, i requires 0 <= i < n => Tube(pieces[i].face, Value(i)))
  }

  /** The image of a value is the base on the first conjunction of its face. */
  predicate IsImage(pieces: seq<Piece>, f: Fact, i: nat) {
    && i < |pieces| && pieces[i].face != [] && f.term == HComp(0, pieces[i].equivalence, [], Value(i))
    && f.other == Trans(0, Base(), [pieces[i].face[0]], Base())
  }

  /** Two values agree where the first conjunctions of their faces meet. */
  predicate IsOverlap(pieces: seq<Piece>, f: Fact, i: nat, j: nat) {
    && i < j < |pieces| && Meets(pieces[i].face, pieces[j].face)
    && var o := Overlap(pieces[j].face[0], pieces[i].face[0]);
       f.term == Trans(0, Value(j), [o], Value(j)) && f.other == Trans(0, Value(i), [o], Value(i))
  }

  ghost predicate Asked(pieces: seq<Piece>, f: Fact) {
    f.kind == Equality ==> (exists i :: IsImage(pieces, f, i)) || (exists i, j :: IsOverlap(pieces, f, i, j))
  }

  /** A run with `n` values added, where no equality was supplied but those asked for. */
  ghost predicate Built(glue: Term, facts: seq<Fact>, s: nat, n: nat, pending: set<nat>) {
    && glue.Glue? && n <= |glue.pieces| && FactsOk(Plain(), facts) && Earlier(facts, s, System)
    && facts[s].term == GlueTerm(glue, Base(), Values(glue.pieces, n)) && facts[s].pending == pending
    && forall e :: 0 <= e < |facts| ==> Asked(glue.pieces, facts[e])
  }

  /** A judgement that no instruction of this model derives. */
  function Premise(kind: Kind, term: Term, other: Term, typ: Term, n: nat): Fact {
    Fact(kind, term, other, typ, 0, Derivation(OtherRule(n), [], 0, [], 0, []), {})
  }

  lemma PremiseAdded(facts: seq<Fact>, f: Fact)
    requires FactsOk(Plain(), facts) && f.kind != System && f.how.rule.OtherRule? && f.pending == {}
    ensures FactsOk(Plain(), facts + [f])
  {
    assert (facts + [f])[|facts|] == f;
    FactsAppend(Plain(), facts, f);
  }

  lemma BuildStart(glue: Term) returns (facts: seq<Fact>, s: nat)
    requires glue.Glue?
    ensures Built(glue, facts, s, 0, {})
  {
    var none := Derivation(OtherRule(0), [], 0, [], 0, []);
    facts := [Fact(Nothing, Base(), Base(), Base(), 0, none, {})];
    PremiseAdded(facts, Premise(Typing, glue, Base(), Base(), 1));
    facts := facts + [Premise(Typing, glue, Base(), Base(), 1)];
    PremiseAdded(facts, Premise(Typing, Base(), Base(), glue.base, 2));
    facts := facts + [Premise(Typing, Base(), Base(), glue.base, 2)];
    var f := Fact(System, GlueTerm(glue, Base(), []), Base(), glue, 0,
                  Derivation(GlueTermBaseRule, [1, 2], 0, [], 0, []), {});
    StartedFact(Plain(), facts, f, 1, 2);
    assert Values(glue.pieces, 0) == [];
    facts, s := facts + [f], 3;
  }

  /** The value for the next piece, with the equality that is asked for. */
  lemma BuildValue(glue: Term, before: seq<Fact>, s0: nat, n: nat) returns (facts: seq<Fact>, s: nat, owed: set<nat>)
    requires Built(glue, before, s0, n, {}) && n < |glue.pieces| && Closable(glue.pieces)
    ensures Built(glue, facts, s, n + 1, owed) && forall i :: i in owed ==>
              i < n && Meets(glue.pieces[i].face, glue.pieces[n].face)
  {
    var p, pieces := glue.pieces[n], glue.pieces;
    facts := before;
    var value := Premise(Typing, Value(n), Base(), p.typ, |facts|);
    PremiseAdded(facts, value);
    facts := facts + [value];
    var v, e := |facts| - 1, 0;
    if p.face != [] {
      var image := Premise(Equality, HComp(0, p.equivalence, [], Value(n)), Trans(0, Base(), [p.face[0]], Base()),
                           Base(), |facts|);
      PremiseAdded(facts, image);
      assert IsImage(pieces, image, n);
      facts := facts + [image];
      e := |facts| - 1;
    }
    owed := set i | 0 <= i < n && Meets(pieces[i].face, p.face);
    var t := Tube(p.face, Value(n));
    assert Values(pieces, n + 1) == Values(pieces, n) + [t];
    var f := Fact(System, GlueTerm(glue, Base(), Values(pieces, n + 1)), Base(), glue, 0,
                  Derivation(ValueRule, [s0, v, e], 0, [], 0, []), owed);
    ValueFact(Plain(), facts, f, s0, v, e, t);
    facts := facts + [f];
    s := |facts| - 1;
  }

  /** Every pending overlap shown, and nothing else. */
  lemma {:induction false} BuildOverlaps(glue: Term, before: seq<Fact>, s0: nat, n: nat, owed: set<nat>)
    returns (facts: seq<Fact>, s: nat)
    requires Built(glue, before, s0, n + 1, owed) && Closable(glue.pieces)
    requires forall i :: i in owed ==> i < n && Meets(glue.pieces[i].face, glue.pieces[n].face)
    ensures Built(glue, facts, s, n + 1, {})
    decreases |owed|
  {
    facts, s := before, s0;
    if owed == {} { return; }
    var i :| i in owed;
    var pieces := glue.pieces;
    var o := Overlap(pieces[n].face[0], pieces[i].face[0]);
    var equal := Premise(Equality, Trans(0, Value(n), [o], Value(n)), Trans(0, Value(i), [o], Value(i)), Base(),
                         |facts|);
    PremiseAdded(facts, equal);
    assert IsOverlap(pieces, equal, i, n);
    facts := facts + [equal];
    var f := Fact(System, before[s0].term, Base(), glue, 0,
                  Derivation(OverlapRule, [s0, |before|], 0, [], i, []), owed - {i});
    OverlapFact(Plain(), facts, f, s0, i, |before|);
    facts := facts + [f];
    facts, s := BuildOverlaps(glue, facts, |facts| - 1, n, owed - {i});
  }

  lemma {:induction false} BuildValues(glue: Term, n: nat) returns (facts: seq<Fact>, s: nat)
    requires glue.Glue? && Closable(glue.pieces) && n <= |glue.pieces|
    ensures Built(glue, facts, s, n, {})
  {
    if n == 0 {
      facts, s := BuildStart(glue);
      return;
    }
    facts, s := BuildValues(glue, n - 1);
    var owed;
    facts, s, owed := BuildValue(glue, facts, s, n - 1);
    facts, s := BuildOverlaps(glue, facts, s, n - 1, owed);
  }

  /** A run that closes a Glue term of the type. */
  lemma BuildClosed(glue: Term) returns (facts: seq<Fact>, id: nat)
    requires glue.Glue? && Closable(glue.pieces)
    ensures ClosedAt(Plain(), facts, id, glue)
    ensures facts[id].term == GlueTerm(glue, Base(), Values(glue.pieces, |glue.pieces|))
    ensures forall e :: 0 <= e < |facts| ==> Asked(glue.pieces, facts[e])
  {
    var s;
    facts, s := BuildValues(glue, |glue.pieces|);
    var f := Fact(Typing, facts[s].term, Base(), glue, 0, Derivation(GlueTermRule, [s], 0, [], 0, []), {});
    ClosedFact(Plain(), facts, f, s, []);
    facts, id := facts + [f], |facts|;
  }

  // ---- The conditions are exact ------------------------------------------------------------------

  lemma OnlyFirstImage(pieces: seq<Piece>, f: Fact, i: nat)
    requires Asked(pieces, f) && i < |pieces| && |pieces[i].face| > 1 && pieces[i].face[0] != pieces[i].face[1]
    ensures !Starts(Plain(), f, HComp(0, pieces[i].equivalence, [], Value(i)),
                    Trans(0, Base(), [pieces[i].face[1]], Base()))
  {
    var first, second := [pieces[i].face[0]], [pieces[i].face[1]];
    assert first[0] != second[0];
  }

  lemma OnlyAskedOverlaps(pieces: seq<Piece>, f: Fact, i: nat, j: nat, o: DimClause)
    requires Asked(pieces, f) && i < j < |pieces| && !Meets(pieces[i].face, pieces[j].face)
    ensures !Equates(Plain(), f, Value(j), Value(i), o)
  {
  }

  /** If a face has two conjunctions, some run closes a Glue term of the type although its
      value was never shown to be the base on the second one. */
  lemma BaseUnshown(glue: Term, i: nat) returns (l: Language, facts: seq<Fact>, id: nat)
    requires glue.Glue? && Closable(glue.pieces) && DistinctFaces(glue.pieces)
    requires i < |glue.pieces| && |glue.pieces[i].face| > 1
    ensures ClosedAt(l, facts, id, glue) && i < |facts[id].term.tubes| && !BaseAgrees(l, facts, id, i)
  {
    l := Plain();
    facts, id := BuildClosed(glue);
    var p, t := glue.pieces[i], facts[id].term;
    forall e | 0 < e < id ensures !Starts(l, facts[e], l.image(p.equivalence, t.tubes[i].term),
                                          l.restrict(t.base, p.face[1])) {
      OnlyFirstImage(glue.pieces, facts[e], i);
    }
    assert !ImageShown(l, facts, id, t, p, t.tubes[i].term, p.face[1]);
  }

  /** If two faces meet but their first conjunctions do not, some run closes a Glue term of
      the type although the two values were never shown to agree. */
  lemma PairUnshown(glue: Term, i: nat, j: nat) returns (l: Language, facts: seq<Fact>, id: nat)
    requires glue.Glue? && Closable(glue.pieces) && i < j < |glue.pieces|
    requires Joint(glue.pieces[i].face, glue.pieces[j].face) && !Meets(glue.pieces[i].face, glue.pieces[j].face)
    ensures ClosedAt(l, facts, id, glue) && |facts[id].term.tubes| == |glue.pieces|
    ensures !TubesAgree(l, facts, id, facts[id].term.tubes[i], facts[id].term.tubes[j])
  {
    l := Plain();
    facts, id := BuildClosed(glue);
    var a, b := glue.pieces[i].face, glue.pieces[j].face;
    var x, y :| 0 <= x < |a| && 0 <= y < |b| && Compatible(a[x], b[y]);
    forall e | 0 < e < id ensures !Equates(l, facts[e], Value(j), Value(i), Overlap(b[y], a[x])) {
      OnlyAskedOverlaps(glue.pieces, facts[e], i, j, Overlap(b[y], a[x]));
    }
    assert !Shown(l, facts, id, Value(j), Value(i), Overlap(b[y], a[x]));
  }

  // ---- The inputs at which the instructions fall short -------------------------------------------

  // A dimension's equation to 0 is in a conjunction's negative part.
  const M: DimClause := Clause({}, {0})
  const K: DimClause := Clause({}, {1})
  const NOT_M: DimClause := Clause({0}, {})

  /** Such a face comes from one conjunction: (i=0) with the meet of m and k for i. */
  lemma SubstitutionSplits(i: Dim)
    ensures Substituted(Face, {Clause({}, {i})}, i, {Clause({0, 1}, {})}) == {M, K}
  {
    var s: set<DimClause>, meet: set<DimClause> := {Clause({}, {i})}, {Clause({0, 1}, {})};
    var left := Substituted(Face, s, i, meet);
    SubstitutedHolds(Face, s, i, meet, Generic<Dim>(Top()));
    assert Normal(Face, {M, K}) by {
      assert 0 in M.negative && 1 in K.negative && 1 !in M.negative && 0 !in K.negative;
    }
    forall v: Point<Dim> | Admits(Face, v) ensures Holds(left, v) <==> Holds({M, K}, v) {
      SubstitutedHolds(Face, s, i, meet, v);
      SplitHolds(s, i, meet, v);
    }
    Canonical(Face, left, {M, K});
  }

  lemma SplitHolds(s: set<DimClause>, i: Dim, meet: set<DimClause>, v: Point<Dim>)
    requires s == {Clause({}, {i})} && meet == {Clause({0, 1}, {})}
    ensures Holds(s, Moved(v, i, meet)) <==> Holds({M, K}, v)
  {
    var p, w := Moved(v, i, meet), Opposite(v);
    assert Clause({}, {i}) in s && (ClauseHolds(Clause({}, {i}), p) <==> i in p.zero);
    assert Clause({0, 1}, {}) in meet && (Holds(meet, w) <==> 0 in w.one && 1 in w.one);
    assert M in {M, K} && K in {M, K};
    assert ClauseHolds(M, v) <==> 0 in v.zero;
    assert ClauseHolds(K, v) <==> 1 in v.zero;
  }

  /** One piece, on (m=0) or (k=0). */
  function SplitPiece(typ: Term, equivalence: Term): seq<Piece> { [Piece([M, K], typ, equivalence)] }

  /** And another, on (m=1), which meets it where k=0. */
  function SplitPair(typ: Term, equivalence: Term): seq<Piece> {
    SplitPiece(typ, equivalence) + [Piece([NOT_M], typ, equivalence)]
  }

  /** A Glue term closes although nothing was asked of its value where k=0. */
  lemma SplitBaseUnshown(base: Term, typ: Term, equivalence: Term) returns (l: Language, facts: seq<Fact>, id: nat)
    ensures ClosedAt(l, facts, id, Glue(base, SplitPiece(typ, equivalence)))
    ensures |facts[id].term.tubes| == 1 && !BaseAgrees(l, facts, id, 0)
  {
    assert M != K by { assert 0 in M.negative && 0 !in K.negative; }
    l, facts, id := BaseUnshown(Glue(base, SplitPiece(typ, equivalence)), 0);
    ClosedValues(l, facts, id, Glue(base, SplitPiece(typ, equivalence)));
  }

  /** A Glue term closes although its values were never shown to agree where they meet. */
  lemma SplitPairUnshown(base: Term, typ: Term, equivalence: Term) returns (l: Language, facts: seq<Fact>, id: nat)
    ensures ClosedAt(l, facts, id, Glue(base, SplitPair(typ, equivalence)))
    ensures |facts[id].term.tubes| == 2 && !TubesAgree(l, facts, id, facts[id].term.tubes[0], facts[id].term.tubes[1])
  {
    var pieces := SplitPair(typ, equivalence);
    assert pieces[0].face == [M, K] && pieces[1].face == [NOT_M];
    assert 0 in M.negative && 0 in NOT_M.positive && !Compatible(M, NOT_M);
    assert Compatible(pieces[0].face[1], pieces[1].face[0]);
    l, facts, id := PairUnshown(Glue(base, pieces), 0, 1);
  }
}
