/** instruction_paths.c and instruction_glue.c: systems of pieces on faces, what it means
    that overlapping pieces agree, and what each judgement of the store records. */
module Systems {
  import opened Lattice
  import opened Formulas

  /** A piece's face: a list of conjunctions of endpoint equations, empty for 0. The pieces
      that an instruction adds have one conjunction at most; those of a Glue type that was
      derived in another way may have several. */
  type Face = seq<DimClause>

  /** Only the first pieces of a system may be overlapped. */
  const OVERLAPS := 64

  datatype Tube = Tube(face: Face, term: Term)

  datatype Piece = Piece(face: Face, typ: Term, equivalence: Term)

  /** A composition binds `dimension` in its family and its tubes. */
  datatype Term =
    | Handle(handle: nat)
    | Comp(dimension: nat, family: Term, tubes: seq<Tube>, base: Term)
    | HComp(dimension: nat, family: Term, tubes: seq<Tube>, base: Term)
    | Trans(dimension: nat, family: Term, clauses: seq<DimClause>, base: Term)
    | Glue(base: Term, pieces: seq<Piece>)
    | GlueTerm(glue: Term, base: Term, tubes: seq<Tube>)

  /** The syntactic operations that the rules use: comparison, restriction to a face, an
      endpoint, free dimensions, the type of equivalences, a value's image, whether a
      type is a universe, and whether a family has formal composition. */
  datatype Language = Language(
    same: (Term, Term) -> bool, restrict: (Term, DimClause) -> Term, endpoint: (Term, nat, bool) -> Term,
    dims: Term -> set<nat>, equivalences: (Term, Term) -> Term, image: (Term, Term) -> Term,
    universe: Term -> bool, join: (Term, Term) -> Term, formal: Term -> bool)

  datatype Rule =
    | SystemRule | TubeRule | OverlapRule | CompRule | HCompRule | TransRule
    | GlueBaseRule | PieceRule | GlueOverlapRule | GlueRule | GlueTermBaseRule | ValueRule | GlueTermRule
    | OtherRule(instruction: nat)

  /** The instruction and the operands that derived a judgement. */
  datatype Derivation = Derivation(rule: Rule, premises: seq<nat>, entry: nat, face: seq<DimClause>, operand: nat,
                                   position: seq<nat>)

  datatype Kind = Nothing | Typing | Equality | System

  /** Typing: term : typ. Equality: term = other : typ. System: a term under
      construction, and the pieces that its last piece has still to agree with. */
  datatype Fact = Fact(kind: Kind, term: Term, other: Term, typ: Term, context: nat, how: Derivation, pending: set<nat>)

  // ---- Agreement --------------------------------------------------------------------------

  function Overlap(a: DimClause, b: DimClause): DimClause { Clause(a.positive + b.positive, a.negative + b.negative) }

  predicate Compatible(a: DimClause, b: DimClause) { (a.positive + b.positive) !! (a.negative + b.negative) }

  /** Two pieces' faces are jointly consistent. */
  predicate Joint(a: Face, b: Face) {
    exists i, j :: 0 <= i < |a| && 0 <= j < |b| && Compatible(a[i], b[j])
  }

  /** What the instructions look at: the first conjunction of each face. */
  predicate Meets(a: Face, b: Face) { a != [] && b != [] && Compatible(a[0], b[0]) }

  /** A judgement that `later` and `earlier` are equal on a face. */
  predicate Equates(l: Language, e: Fact, later: Term, earlier: Term, face: DimClause) {
    e.kind == Equality && l.same(e.term, l.restrict(later, face)) && l.same(e.other, l.restrict(earlier, face))
  }

  /** Among the first `n` judgements, one equates the two terms on the face. */
  ghost predicate Shown(l: Language, facts: seq<Fact>, n: nat, later: Term, earlier: Term, face: DimClause) {
    exists e :: 0 < e < n && e < |facts| && Equates(l, facts[e], later, earlier, face)
  }

  /** Two tubes were shown to agree wherever they meet. */
  ghost predicate TubesAgree(l: Language, facts: seq<Fact>, n: nat, a: Tube, b: Tube) {
    forall i, j :: 0 <= i < |a.face| && 0 <= j < |b.face| && Compatible(a.face[i], b.face[j]) ==>
      Shown(l, facts, n, b.term, a.term, Overlap(b.face[j], a.face[i]))
  }

  ghost predicate PiecesAgree(l: Language, facts: seq<Fact>, n: nat, a: Piece, b: Piece) {
    forall i, j :: 0 <= i < |a.face| && 0 <= j < |b.face| && Compatible(a.face[i], b.face[j]) ==>
      && Shown(l, facts, n, b.typ, a.typ, Overlap(b.face[j], a.face[i]))
      && Shown(l, facts, n, b.equivalence, a.equivalence, Overlap(b.face[j], a.face[i]))
  }

  /** What the overlap instruction asks: both faces are one conjunction, and the terms are
      equal where they meet. */
  ghost predicate TubesShown(l: Language, facts: seq<Fact>, n: nat, a: Tube, b: Tube) {
    |a.face| == |b.face| == 1 && Shown(l, facts, n, b.term, a.term, Overlap(b.face[0], a.face[0]))
  }

  ghost predicate PiecesShown(l: Language, facts: seq<Fact>, n: nat, a: Piece, b: Piece) {
    && |a.face| == |b.face| == 1
    && Shown(l, facts, n, b.typ, a.typ, Overlap(b.face[0], a.face[0]))
    && Shown(l, facts, n, b.equivalence, a.equivalence, Overlap(b.face[0], a.face[0]))
  }

  ghost predicate TubePair(l: Language, facts: seq<Fact>, n: nat, i: nat, a: Tube, b: Tube) {
    Meets(a.face, b.face) ==> i < OVERLAPS && TubesShown(l, facts, n, a, b)
  }

  ghost predicate PiecePair(l: Language, facts: seq<Fact>, n: nat, i: nat, a: Piece, b: Piece) {
    Meets(a.face, b.face) ==> i < OVERLAPS && PiecesShown(l, facts, n, a, b)
  }

  predicate OwedTube(tubes: seq<Tube>, i: nat) {
    i + 1 < |tubes| && Meets(tubes[i].face, tubes[|tubes| - 1].face)
  }

  predicate OwedPiece(pieces: seq<Piece>, i: nat) {
    i + 1 < |pieces| && Meets(pieces[i].face, pieces[|pieces| - 1].face)
  }

  /** Every two tubes whose first conjunctions meet were shown to agree, but for the last one
      and those pending; and only overlaps of the last one are pending. */
  ghost predicate TubesOk(l: Language, facts: seq<Fact>, n: nat, tubes: seq<Tube>, pending: set<nat>) {
    && (forall i, j ::
          0 <= i < j < |tubes| && !(j + 1 == |tubes| && i in pending) ==> TubePair(l, facts, n, i, tubes[i], tubes[j]))
    && (forall i :: i in pending ==> OwedTube(tubes, i))
  }

  ghost predicate PiecesOk(l: Language, facts: seq<Fact>, n: nat, pieces: seq<Piece>, pending: set<nat>) {
    && (forall i, j ::
          0 <= i < j < |pieces| && !(j + 1 == |pieces| && i in pending) ==>
            PiecePair(l, facts, n, i, pieces[i], pieces[j]))
    && (forall i :: i in pending ==> OwedPiece(pieces, i))
  }

  /** A tube on a face is in the family there, and starts at the base. */
  ghost predicate TubeFits(l: Language, facts: seq<Fact>, n: nat, dimension: nat, family: Term, base: Term, t: Tube) {
    t.face != [] ==>
      && Names(t.face[0]) !! l.dims(t.term) && dimension !in Names(t.face[0])
      && (exists u :: 0 < u < n && u < |facts| && InFamily(l, facts[u], t.term, l.restrict(family, t.face[0])))
      && (exists e ::
            0 < e < n && e < |facts|
            && Starts(l, facts[e], l.endpoint(t.term, dimension, false), l.restrict(base, t.face[0])))
  }

  predicate InFamily(l: Language, u: Fact, term: Term, typ: Term) {
    u.kind == Typing && u.term == term && l.same(u.typ, typ)
  }

  predicate Starts(l: Language, e: Fact, from: Term, to: Term) {
    e.kind == Equality && l.same(e.term, from) && l.same(e.other, to)
  }

  function Names(c: DimClause): set<Dim> { c.positive + c.negative }

  /** One consistent conjunction, or 0. */
  predicate Single(f: Face) { |f| <= 1 && (f != [] ==> f[0].positive !! f[0].negative) }

  predicate OnFaces(faces: seq<Face>) { forall i :: 0 <= i < |faces| ==> Single(faces[i]) }

  function TubeFaces(tubes: seq<Tube>): seq<Face> { seq(|tubes|, i requires 0 <= i < |tubes| => tubes[i].face) }

  function PieceFaces(pieces: seq<Piece>): seq<Face> { seq(|pieces|, i requires 0 <= i < |pieces| => pieces[i].face) }

  /** What a composition under construction, or closed, has been shown. */
  ghost predicate CompOk(l: Language, facts: seq<Fact>, n: nat, dimension: nat, family: Term, tubes: seq<Tube>,
                         base: Term, pending: set<nat>) {
    && OnFaces(TubeFaces(tubes)) && TubesOk(l, facts, n, tubes, pending)
    && forall i :: 0 <= i < |tubes| ==> TubeFits(l, facts, n, dimension, family, base, tubes[i])
  }

  /** A piece on a face has an equivalence from its type to the base there. */
  ghost predicate PieceFits(l: Language, facts: seq<Fact>, n: nat, base: Term, p: Piece) {
    p.face != [] ==>
      && Names(p.face[0]) !! l.dims(p.typ) + l.dims(p.equivalence)
      && (exists e ::
            0 < e < n && e < |facts|
            && InFamily(l, facts[e], p.equivalence, l.equivalences(p.typ, l.restrict(base, p.face[0]))))
  }

  ghost predicate GlueOk(l: Language, facts: seq<Fact>, n: nat, base: Term, pieces: seq<Piece>, pending: set<nat>) {
    && OnFaces(PieceFaces(pieces)) && PiecesOk(l, facts, n, pieces, pending)
    && forall i :: 0 <= i < |pieces| ==> PieceFits(l, facts, n, base, pieces[i])
  }

  /** A value on a face is in the piece's type, and its image is the base on the face's
      first conjunction. */
  ghost predicate ValueFits(l: Language, facts: seq<Fact>, n: nat, base: Term, p: Piece, t: Tube) {
    && t.face == p.face
    && (p.face != [] ==>
          && Names(p.face[0]) !! l.dims(t.term)
          && (exists v :: 0 < v < n && v < |facts| && InFamily(l, facts[v], t.term, p.typ))
          && (exists e ::
                0 < e < n && e < |facts|
                && Starts(l, facts[e], l.image(p.equivalence, t.term), l.restrict(base, p.face[0]))))
  }

  /** A Glue term's values are for its type's pieces, in order. */
  ghost predicate GlueTermOk(l: Language, facts: seq<Fact>, n: nat, glue: Term, base: Term, tubes: seq<Tube>,
                             pending: set<nat>) {
    && glue.Glue? && |tubes| <= |glue.pieces| && TubesOk(l, facts, n, tubes, pending)
    && forall i :: 0 <= i < |tubes| ==> ValueFits(l, facts, n, base, glue.pieces[i], tubes[i])
  }

  // ---- How a Glue term is built --------------------------------------------------------------

  /** The pending overlaps of a new piece. */
  ghost predicate OwedOn(faces: seq<Face>, mine: Face, owed: set<nat>) {
    forall i: nat :: i in owed <==> i < |faces| && Meets(faces[i], mine)
  }

  predicate Before(facts: seq<Fact>, id: nat, p: nat, kind: Kind) {
    0 < p < id && id <= |facts| && facts[p].kind == kind
  }

  ghost predicate GlueTermStarts(l: Language, facts: seq<Fact>, id: nat, t: nat, a: nat)
    requires id < |facts|
  {
    && Before(facts, id, t, Typing) && Before(facts, id, a, Typing) && l.universe(facts[t].typ) && facts[t].term.Glue?
    && l.same(facts[a].typ, facts[t].term.base)
    && facts[id].term == GlueTerm(facts[t].term, facts[a].term, []) && facts[id].pending == {}
  }

  predicate ValueFitting(l: Language, p: Piece, base: Term, v: Fact, e: Fact)
    requires p.face != []
  {
    && Names(p.face[0]) !! l.dims(v.term) && l.same(v.typ, p.typ)
    && l.same(e.term, l.image(p.equivalence, v.term)) && l.same(e.other, l.restrict(base, p.face[0]))
  }

  /** A value for the next piece of the type; only the piece's first conjunction is read. */
  ghost predicate ValueAdded(l: Language, facts: seq<Fact>, id: nat, s: nat, v: nat, e: nat)
    requires id < |facts|
  {
    && Before(facts, id, s, System) && facts[s].pending == {} && facts[s].term.GlueTerm? && facts[s].term.glue.Glue?
    && |facts[s].term.tubes| < |facts[s].term.glue.pieces| && Before(facts, id, v, Typing)
    && var t := facts[s].term;
       var p := t.glue.pieces[|t.tubes|];
       && (if p.face == [] then e == 0
           else Before(facts, id, e, Equality) && ValueFitting(l, p, t.base, facts[v], facts[e]))
       && facts[id].term == GlueTerm(t.glue, t.base, t.tubes + [Tube(p.face, facts[v].term)])
       && OwedOn(TubeFaces(t.tubes), p.face, facts[id].pending) && forall i :: i in facts[id].pending ==> i < OVERLAPS
  }

  /** An overlap is shown; it was pending, and both faces are one conjunction. */
  ghost predicate OverlapPaid(l: Language, facts: seq<Fact>, id: nat, s: nat, e: nat, position: nat)
    requires id < |facts|
  {
    && Before(facts, id, s, System) && facts[s].term.GlueTerm? && Before(facts, id, e, Equality)
    && facts[id].term == facts[s].term && position < OVERLAPS && position in facts[s].pending
    && facts[id].pending == facts[s].pending - {position}
    && var tubes := facts[s].term.tubes;
       && position + 1 < |tubes| && |tubes[position].face| == |tubes[|tubes| - 1].face| == 1
       && Equates(l, facts[e], tubes[|tubes| - 1].term, tubes[position].term,
                  Overlap(tubes[|tubes| - 1].face[0], tubes[position].face[0]))
  }

  predicate GlueTermCloses(facts: seq<Fact>, id: nat, s: nat)
    requires id < |facts|
  {
    && Before(facts, id, s, System) && facts[s].pending == {} && facts[s].term.GlueTerm? && facts[s].term.glue.Glue?
    && |facts[s].term.tubes| == |facts[s].term.glue.pieces| && facts[id].term == facts[s].term
  }

  /** A Glue term under construction, or closed, is the result of its own instruction on
      its premises: exactly the checks that the instruction makes. */
  ghost predicate GlueTermStep(l: Language, facts: seq<Fact>, id: nat)
    requires id < |facts|
  {
    var f, ps := facts[id], facts[id].how.premises;
    && (f.kind == System && f.term.GlueTerm? ==>
          match f.how.rule
          case GlueTermBaseRule => |ps| == 2 && GlueTermStarts(l, facts, id, ps[0], ps[1])
          case ValueRule => |ps| == 3 && ValueAdded(l, facts, id, ps[0], ps[1], ps[2])
          case OverlapRule => |ps| == 2 && OverlapPaid(l, facts, id, ps[0], ps[1], f.how.operand)
          case _ => false)
    && (f.kind == Typing && f.how.rule == GlueTermRule ==> |ps| == 1 && GlueTermCloses(facts, id, ps[0]))
  }

  lemma StepGrows(l: Language, facts: seq<Fact>, facts': seq<Fact>, id: nat)
    requires id < |facts| && id < |facts'| && facts[..id + 1] == facts'[..id + 1] && GlueTermStep(l, facts, id)
    ensures GlueTermStep(l, facts', id)
  {
    forall p | 0 <= p <= id ensures facts'[p] == facts[p] { assert facts'[p] == facts'[..id + 1][p]; }
  }

  // ---- What each judgement records -----------------------------------------------------------

  /** What is known of a judgement, from the ones before it. */
  ghost predicate FactOk(l: Language, facts: seq<Fact>, id: nat)
    requires id < |facts|
  {
    var f := facts[id];
    && (f.kind != System ==> f.pending == {})
    && (f.kind == System ==>
          match f.term
          case Comp(d, family, tubes, base) => CompOk(l, facts, id, d, family, tubes, base, f.pending)
          case Glue(base, pieces) => GlueOk(l, facts, id, base, pieces, f.pending)
          case GlueTerm(glue, base, tubes) => GlueTermOk(l, facts, id, glue, base, tubes, f.pending)
          case _ => false)
    && (f.kind != System ==> ClosedOk(l, facts, id))
    && GlueTermStep(l, facts, id)
  }

  /** What a closed judgement's instruction promises. */
  ghost predicate ClosedOk(l: Language, facts: seq<Fact>, id: nat)
    requires id < |facts|
  {
    var f := facts[id];
    match f.how.rule
    case CompRule =>
      f.term.Comp? && CompOk(l, facts, id, f.term.dimension, f.term.family, f.term.tubes, f.term.base, {})
    case HCompRule =>
      f.term.HComp? && CompOk(l, facts, id, f.term.dimension, f.term.family, f.term.tubes, f.term.base, {})
    case TransRule => f.term.Trans? && TransOk(l, facts, id, f.term)
    case GlueRule => f.term.Glue? && GlueOk(l, facts, id, f.term.base, f.term.pieces, {})
    case GlueTermRule =>
      f.term.GlueTerm? && GlueTermOk(l, facts, id, f.term.glue, f.term.base, f.term.tubes, {})
          && |f.term.tubes| == |f.term.glue.pieces|
    case _ => true
  }

  /** A transport is closed from a composition whose tubes are its face's clauses, each
      the base on the clause. */
  ghost predicate TransOk(l: Language, facts: seq<Fact>, n: nat, t: Term)
    requires t.Trans?
  {
    exists tubes :: ConstantTubes(l, tubes, t.clauses, t.base)
        && CompOk(l, facts, n, t.dimension, t.family, tubes, t.base, {})
  }

  predicate ConstantTubes(l: Language, tubes: seq<Tube>, clauses: seq<DimClause>, base: Term) {
    |tubes| == |clauses| && forall i :: 0 <= i < |tubes| ==>
      tubes[i].face == [clauses[i]] && l.same(tubes[i].term, l.restrict(base, clauses[i]))
  }

  ghost predicate FactsOk(l: Language, facts: seq<Fact>) {
    |facts| > 0 && forall id :: 0 < id < |facts| ==> FactOk(l, facts, id)
  }

  // ---- The masks and the points ----------------------------------------------------------------

  /** Two clauses are compatible just when both hold at some point. */
  lemma CompatibleHolds(a: DimClause, b: DimClause)
    ensures Compatible(a, b) <==> exists v :: Admits(Sort.Face, v) && ClauseHolds(a, v) && ClauseHolds(b, v)
  {
    var o := Overlap(a, b);
    if Compatible(a, b) {
      var v := Generic(o);
      assert Admits(Sort.Face, v) && ClauseHolds(a, v) && ClauseHolds(b, v);
    }
    if v :| Admits(Sort.Face, v) && ClauseHolds(a, v) && ClauseHolds(b, v) {
      assert forall d :: d in o.positive ==> d in v.one;
      assert forall d :: d in o.negative ==> d in v.zero;
    }
  }

  /** Their joined clause holds where both do. */
  lemma OverlapHolds(a: DimClause, b: DimClause, v: Point<Dim>)
    ensures ClauseHolds(Overlap(a, b), v) <==> ClauseHolds(a, v) && ClauseHolds(b, v)
  {
  }

  /** A point of both faces. */
  ghost predicate FacesShare(a: Face, b: Face) {
    exists v :: Admits(Sort.Face, v) && Holds(SetOf(a), v) && Holds(SetOf(b), v)
  }

  /** A point of both faces' first conjunctions. */
  ghost predicate FirstsShare(a: Face, b: Face) {
    a != [] && b != [] && exists v :: Admits(Sort.Face, v) && ClauseHolds(a[0], v) && ClauseHolds(b[0], v)
  }

  lemma MeetsHolds(a: Face, b: Face)
    ensures Meets(a, b) <==> FirstsShare(a, b)
  {
    if a != [] && b != [] { CompatibleHolds(a[0], b[0]); }
  }

  /** Two faces are jointly consistent just when they share a point. */
  lemma JointHolds(a: Face, b: Face)
    ensures Joint(a, b) <==> FacesShare(a, b)
  {
    if Joint(a, b) {
      var i, j :| 0 <= i < |a| && 0 <= j < |b| && Compatible(a[i], b[j]);
      CompatibleHolds(a[i], b[j]);
      var v :| Admits(Sort.Face, v) && ClauseHolds(a[i], v) && ClauseHolds(b[j], v);
      assert a[i] in SetOf(a) && b[j] in SetOf(b);
      assert Holds(SetOf(a), v) && Holds(SetOf(b), v);
    }
    if v :| Admits(Sort.Face, v) && Holds(SetOf(a), v) && Holds(SetOf(b), v) { var i, j := MeetingAt(a, b, v); }
  }

  /** The conjunctions of two faces that hold at a point of both. */
  lemma MeetingAt(a: Face, b: Face, v: Point<Dim>) returns (i: nat, j: nat)
    requires Admits(Sort.Face, v) && Holds(SetOf(a), v) && Holds(SetOf(b), v)
    ensures i < |a| && j < |b| && ClauseHolds(a[i], v) && ClauseHolds(b[j], v) && Compatible(a[i], b[j])
  {
    var c :| c in SetOf(a) && ClauseHolds(c, v);
    var d :| d in SetOf(b) && ClauseHolds(d, v);
    i :| 0 <= i < |a| && a[i] == c;
    j :| 0 <= j < |b| && b[j] == d;
    CompatibleHolds(c, d);
  }

  // ---- Growth and truncation ------------------------------------------------------------------

  /** Nothing that was known is lost when judgements are added, or the later ones
      dropped. */
  lemma ShownGrows(l: Language, facts: seq<Fact>, facts': seq<Fact>, n: nat, n': nat, later: Term, earlier: Term,
                   face: DimClause)
    requires Shown(l, facts, n, later, earlier, face) && n <= n' && n <= |facts'| && n <= |facts|
    requires facts[..n] == facts'[..n]
    ensures Shown(l, facts', n', later, earlier, face)
  {
    var e :| 0 < e < n && e < |facts| && Equates(l, facts[e], later, earlier, face);
    assert facts'[e] == facts'[..n][e] == facts[e];
  }

  lemma TubesGrow(l: Language, facts: seq<Fact>, facts': seq<Fact>, n: nat, n': nat, tubes: seq<Tube>,
                  pending: set<nat>)
    requires TubesOk(l, facts, n, tubes, pending) && n <= n' && n <= |facts'| && n <= |facts|
    requires facts[..n] == facts'[..n]
    ensures TubesOk(l, facts', n', tubes, pending)
  {
    forall i, j | 0 <= i < j < |tubes| && !(j + 1 == |tubes| && i in pending)
      ensures TubePair(l, facts', n', i, tubes[i], tubes[j])
    {
      var a, b := tubes[i], tubes[j];
      assert TubePair(l, facts, n, i, a, b);
      if Meets(a.face, b.face) { ShownGrows(l, facts, facts', n, n', b.term, a.term, Overlap(b.face[0], a.face[0])); }
    }
  }

  lemma FitsGrows(l: Language, facts: seq<Fact>, facts': seq<Fact>, n: nat, n': nat, d: nat, family: Term, base: Term,
                  t: Tube)
    requires TubeFits(l, facts, n, d, family, base, t) && n <= n' && n <= |facts'| && n <= |facts|
    requires facts[..n] == facts'[..n]
    ensures TubeFits(l, facts', n', d, family, base, t)
  {
    if t.face != [] {
      var u :| 0 < u < n && u < |facts| && InFamily(l, facts[u], t.term, l.restrict(family, t.face[0]));
      var e :| 0 < e < n && e < |facts|
          && Starts(l, facts[e], l.endpoint(t.term, d, false), l.restrict(base, t.face[0]));
      assert facts'[u] == facts'[..n][u] == facts[u];
      assert facts'[e] == facts'[..n][e] == facts[e];
    }
  }

  lemma CompGrows(l: Language, facts: seq<Fact>, facts': seq<Fact>, n: nat, n': nat, d: nat, family: Term,
                  tubes: seq<Tube>, base: Term, pending: set<nat>)
    requires CompOk(l, facts, n, d, family, tubes, base, pending) && n <= n' && n <= |facts'| && n <= |facts|
    requires facts[..n] == facts'[..n]
    ensures CompOk(l, facts', n', d, family, tubes, base, pending)
  {
    TubesGrow(l, facts, facts', n, n', tubes, pending);
    forall i | 0 <= i < |tubes| ensures TubeFits(l, facts', n', d, family, base, tubes[i]) {
      FitsGrows(l, facts, facts', n, n', d, family, base, tubes[i]);
    }
  }

  lemma GlueGrows(l: Language, facts: seq<Fact>, facts': seq<Fact>, n: nat, n': nat, base: Term, pieces: seq<Piece>,
                  pending: set<nat>)
    requires GlueOk(l, facts, n, base, pieces, pending) && n <= n' && n <= |facts'| && n <= |facts|
    requires facts[..n] == facts'[..n]
    ensures GlueOk(l, facts', n', base, pieces, pending)
  {
    forall i, j | 0 <= i < j < |pieces| && !(j + 1 == |pieces| && i in pending)
      ensures PiecePair(l, facts', n', i, pieces[i], pieces[j])
    {
      var a, b := pieces[i], pieces[j];
      assert PiecePair(l, facts, n, i, a, b);
      if Meets(a.face, b.face) {
        ShownGrows(l, facts, facts', n, n', b.typ, a.typ, Overlap(b.face[0], a.face[0]));
        ShownGrows(l, facts, facts', n, n', b.equivalence, a.equivalence, Overlap(b.face[0], a.face[0]));
      }
    }
    forall i | 0 <= i < |pieces| ensures PieceFits(l, facts', n', base, pieces[i]) {
      var p := pieces[i];
      if p.face != [] {
        var e :| 0 < e < n && e < |facts|
            && InFamily(l, facts[e], p.equivalence, l.equivalences(p.typ, l.restrict(base, p.face[0])));
        assert facts'[e] == facts'[..n][e] == facts[e];
      }
    }
  }

  lemma GlueTermGrows(l: Language, facts: seq<Fact>, facts': seq<Fact>, n: nat, n': nat, glue: Term, base: Term,
                      tubes: seq<Tube>, pending: set<nat>)
    requires GlueTermOk(l, facts, n, glue, base, tubes, pending) && n <= n' && n <= |facts'| && n <= |facts|
    requires facts[..n] == facts'[..n]
    ensures GlueTermOk(l, facts', n', glue, base, tubes, pending)
  {
    TubesGrow(l, facts, facts', n, n', tubes, pending);
    forall i | 0 <= i < |tubes| ensures ValueFits(l, facts', n', base, glue.pieces[i], tubes[i]) {
      var p, t := glue.pieces[i], tubes[i];
      assert ValueFits(l, facts, n, base, p, t);
      if p.face != [] {
        var v :| 0 < v < n && v < |facts| && InFamily(l, facts[v], t.term, p.typ);
        var e :| 0 < e < n && e < |facts|
            && Starts(l, facts[e], l.image(p.equivalence, t.term), l.restrict(base, p.face[0]));
        assert facts'[v] == facts'[..n][v] == facts[v];
        assert facts'[e] == facts'[..n][e] == facts[e];
      }
    }
  }

  lemma FactGrows(l: Language, facts: seq<Fact>, facts': seq<Fact>, id: nat)
    requires id < |facts| && id < |facts'| && facts[..id + 1] == facts'[..id + 1] && FactOk(l, facts, id)
    ensures FactOk(l, facts', id)
  {
    var f := facts[id];
    assert facts'[id] == facts'[..id + 1][id] == f;
    assert facts[..id] == facts[..id + 1][..id] == facts'[..id + 1][..id] == facts'[..id];
    StepGrows(l, facts, facts', id);
    if f.kind == System {
      match f.term
      case Comp(d, family, tubes, base) => CompGrows(l, facts, facts', id, id, d, family, tubes, base, f.pending);
      case Glue(base, pieces) => GlueGrows(l, facts, facts', id, id, base, pieces, f.pending);
      case GlueTerm(glue, base, tubes) => GlueTermGrows(l, facts, facts', id, id, glue, base, tubes, f.pending);
      case _ =>
    } else {
      ClosedGrows(l, facts, facts', id);
    }
  }

  lemma ClosedGrows(l: Language, facts: seq<Fact>, facts': seq<Fact>, id: nat)
    requires id < |facts| && id < |facts'| && facts[id] == facts'[id] && facts[..id] == facts'[..id]
    requires ClosedOk(l, facts, id)
    ensures ClosedOk(l, facts', id)
  {
    var t := facts[id].term;
    match facts[id].how.rule
    case CompRule => CompGrows(l, facts, facts', id, id, t.dimension, t.family, t.tubes, t.base, {});
    case HCompRule => CompGrows(l, facts, facts', id, id, t.dimension, t.family, t.tubes, t.base, {});
    case TransRule =>
      var tubes :| ConstantTubes(l, tubes, t.clauses, t.base)
          && CompOk(l, facts, id, t.dimension, t.family, tubes, t.base, {});
      CompGrows(l, facts, facts', id, id, t.dimension, t.family, tubes, t.base, {});
    case GlueRule => GlueGrows(l, facts, facts', id, id, t.base, t.pieces, {});
    case GlueTermRule => GlueTermGrows(l, facts, facts', id, id, t.glue, t.base, t.tubes, {});
    case _ =>
  }

  lemma FactStays(l: Language, facts: seq<Fact>, f: Fact, id: nat)
    requires FactsOk(l, facts) && 0 < id < |facts|
    ensures FactOk(l, facts + [f], id)
  {
    assert FactOk(l, facts, id);
    assert (facts + [f])[..id + 1] == facts[..id + 1];
    FactGrows(l, facts, facts + [f], id);
  }

  lemma FactsAppend(l: Language, facts: seq<Fact>, f: Fact)
    requires FactsOk(l, facts) && FactOk(l, facts + [f], |facts|)
    ensures FactsOk(l, facts + [f])
  {
    forall id | 0 < id < |facts| ensures FactOk(l, facts + [f], id) { FactStays(l, facts, f, id); }
  }

  // ---- What a step of the protocol establishes -----------------------------------------------

  /** A new last tube: it owes an agreement to every tube that its face meets. */
  lemma TubeAdded(l: Language, facts: seq<Fact>, n: nat, tubes: seq<Tube>, t: Tube, owed: set<nat>)
    requires TubesOk(l, facts, n, tubes, {})
    requires forall i: nat :: i in owed <==> i < |tubes| && Meets(tubes[i].face, t.face)
    ensures TubesOk(l, facts, n, tubes + [t], owed)
  {
    var more := tubes + [t];
    forall i, j | 0 <= i < j < |more|
        && !(j + 1 == |more| && i in owed) ensures TubePair(l, facts, n, i, more[i], more[j]) {
      if j < |tubes| { assert more[i] == tubes[i] && more[j] == tubes[j]; } else {
        assert more[i] == tubes[i] && i !in owed;
      }
    }
  }

  lemma PieceAdded(l: Language, facts: seq<Fact>, n: nat, pieces: seq<Piece>, p: Piece, owed: set<nat>)
    requires PiecesOk(l, facts, n, pieces, {})
    requires forall i: nat :: i in owed <==> i < |pieces| && Meets(pieces[i].face, p.face)
    ensures PiecesOk(l, facts, n, pieces + [p], owed)
  {
    var more := pieces + [p];
    forall i, j | 0 <= i < j < |more|
        && !(j + 1 == |more| && i in owed) ensures PiecePair(l, facts, n, i, more[i], more[j]) {
      if j < |pieces| { assert more[i] == pieces[i] && more[j] == pieces[j]; } else {
        assert more[i] == pieces[i] && i !in owed;
      }
    }
  }

  /** An agreement that was owed is shown. */
  lemma TubePaid(l: Language, facts: seq<Fact>, n: nat, tubes: seq<Tube>, pending: set<nat>, i: nat)
    requires TubesOk(l, facts, n, tubes, pending) && i in pending && i < OVERLAPS
    requires TubesShown(l, facts, n, tubes[i], tubes[|tubes| - 1])
    ensures TubesOk(l, facts, n, tubes, pending - {i})
  {
  }

  lemma PiecePaid(l: Language, facts: seq<Fact>, n: nat, pieces: seq<Piece>, pending: set<nat>, i: nat)
    requires PiecesOk(l, facts, n, pieces, pending) && i in pending && i < OVERLAPS
    requires PiecesShown(l, facts, n, pieces[i], pieces[|pieces| - 1])
    ensures PiecesOk(l, facts, n, pieces, pending - {i})
  {
  }

  // ---- The safety of closed judgements -------------------------------------------------------

  /** In any store in order: when a composition is closed, every two of its tubes whose
      faces are jointly consistent were shown to agree on the overlap, by an earlier
      equality judgement. */
  lemma ClosedTubesAgree(l: Language, facts: seq<Fact>, id: nat, i: nat, j: nat)
    requires FactsOk(l, facts) && 0 < id < |facts| && facts[id].kind == Typing
    requires facts[id].how.rule in {CompRule, HCompRule}
    ensures facts[id].term.Comp? || facts[id].term.HComp?
    ensures i < j < |facts[id].term.tubes| ==>
              TubesAgree(l, facts, id, facts[id].term.tubes[i], facts[id].term.tubes[j])
  {
    assert FactOk(l, facts, id);
    var tubes := facts[id].term.tubes;
    if i < j < |tubes| {
      assert |TubeFaces(tubes)[i]| <= 1 && |TubeFaces(tubes)[j]| <= 1;
      assert TubePair(l, facts, id, i, tubes[i], tubes[j]);
    }
  }

  /** A closed transport had been a composition whose tubes all agree and are constant. */
  lemma ClosedTransportAgrees(l: Language, facts: seq<Fact>, id: nat) returns (tubes: seq<Tube>)
    requires FactsOk(l, facts) && 0 < id < |facts| && facts[id].kind == Typing && facts[id].how.rule == TransRule
    ensures facts[id].term.Trans? && ConstantTubes(l, tubes, facts[id].term.clauses, facts[id].term.base)
    ensures forall i, j :: 0 <= i < j < |tubes| ==> TubesAgree(l, facts, id, tubes[i], tubes[j])
  {
    assert FactOk(l, facts, id);
    var t := facts[id].term;
    tubes :| ConstantTubes(l, tubes, t.clauses, t.base)
        && CompOk(l, facts, id, t.dimension, t.family, tubes, t.base, {});
    forall i, j | 0 <= i < j < |tubes| ensures TubesAgree(l, facts, id, tubes[i], tubes[j]) {
      assert |TubeFaces(tubes)[i]| <= 1 && |TubeFaces(tubes)[j]| <= 1;
      assert TubePair(l, facts, id, i, tubes[i], tubes[j]);
    }
  }

  lemma ClosedPiecesAgree(l: Language, facts: seq<Fact>, id: nat, i: nat, j: nat)
    requires FactsOk(l, facts) && 0 < id < |facts| && facts[id].kind == Typing && facts[id].how.rule == GlueRule
    ensures facts[id].term.Glue?
    ensures i < j < |facts[id].term.pieces| ==>
              PiecesAgree(l, facts, id, facts[id].term.pieces[i], facts[id].term.pieces[j])
  {
    assert FactOk(l, facts, id);
    var pieces := facts[id].term.pieces;
    if i < j < |pieces| {
      assert |PieceFaces(pieces)[i]| <= 1 && |PieceFaces(pieces)[j]| <= 1;
      assert PiecePair(l, facts, id, i, pieces[i], pieces[j]);
    }
  }
}
