/** instruction_paths.c and instruction_glue.c: the instructions that build a composition
    or a Glue type one piece at a time. After each piece the pending overlaps are owed;
    nothing is added or closed before they are shown. */
module Rules {
  import opened Lattice
  import opened Formulas
  import opened Contexts
  import opened Systems
  import opened Judgements

  // ---- What each new judgement rests on --------------------------------------------------------

  lemma Lifted(l: Language, facts: seq<Fact>, f: Fact, system: nat)
    requires FactsOk(l, facts) && 0 < system < |facts| && facts[system].kind == System
    ensures match facts[system].term
            case Comp(d, family, tubes, base) =>
              CompOk(l, facts + [f], |facts|, d, family, tubes, base, facts[system].pending)
            case Glue(base, pieces) => GlueOk(l, facts + [f], |facts|, base, pieces, facts[system].pending)
            case GlueTerm(glue, base, tubes) =>
              GlueTermOk(l, facts + [f], |facts|, glue, base, tubes, facts[system].pending)
            case _ => false
  {
    assert FactOk(l, facts, system);
    assert facts[..system] == (facts + [f])[..system];
    var s := facts[system];
    match s.term
    case Comp(d, family, tubes, base) =>
      CompGrows(l, facts, facts + [f], system, |facts|, d, family, tubes, base, s.pending);
    case Glue(base, pieces) => GlueGrows(l, facts, facts + [f], system, |facts|, base, pieces, s.pending);
    case GlueTerm(glue, base, tubes) =>
      GlueTermGrows(l, facts, facts + [f], system, |facts|, glue, base, tubes, s.pending);
    case _ =>
  }

  predicate Earlier(facts: seq<Fact>, id: nat, kind: Kind) { 0 < id < |facts| && facts[id].kind == kind }

  function WithTube(s: Term, t: Tube): Term {
    match s
    case Comp(d, family, tubes, base) => Comp(d, family, tubes + [t], base)
    case GlueTerm(glue, base, tubes) => GlueTerm(glue, base, tubes + [t])
    case _ => s
  }

  function WithPiece(s: Term, p: Piece): Term {
    match s
    case Glue(base, pieces) => Glue(base, pieces + [p])
    case _ => s
  }

  lemma TubeFact(l: Language, facts: seq<Fact>, f: Fact, system: nat, u: nat, e: nat, t: Tube)
    requires FactsOk(l, facts) && Earlier(facts, system, System) && facts[system].pending == {}
    requires facts[system].term.Comp?
    requires f.kind == System && f.term == WithTube(facts[system].term, t)
    requires OwedOn(TubeFaces(facts[system].term.tubes), t.face, f.pending)
    requires |t.face| <= 1
    requires t.face != [] ==>
               && t.face[0].positive !! t.face[0].negative && Names(t.face[0]) !! l.dims(t.term)
               && f.term.dimension !in Names(t.face[0])
               && Earlier(facts, u, Typing) && InFamily(l, facts[u], t.term, l.restrict(f.term.family, t.face[0]))
               && Earlier(facts, e, Equality)
               && Starts(l, facts[e], l.endpoint(t.term, f.term.dimension, false), l.restrict(f.term.base, t.face[0]))
    ensures FactsOk(l, facts + [f])
  {
    var now, n, tubes := facts + [f], |facts|, facts[system].term.tubes;
    Lifted(l, facts, f, system);
    TubeAdded(l, now, n, tubes, t, f.pending);
    if t.face != [] { assert now[u] == facts[u] && now[e] == facts[e]; }
    assert TubeFits(l, now, n, f.term.dimension, f.term.family, f.term.base, t);
    forall i | 0 <= i < |tubes
        + [t]| ensures TubeFits(l, now, n, f.term.dimension, f.term.family, f.term.base, (tubes + [t])[i]) {
      if i < |tubes| { assert (tubes + [t])[i] == tubes[i]; }
    }
    var faces := TubeFaces(tubes + [t]);
    forall i | 0 <= i < |faces| ensures Single(faces[i]) {
      if i < |tubes| { assert faces[i] == TubeFaces(tubes)[i]; }
    }
    FactsAppend(l, facts, f);
  }

  lemma PieceFact(l: Language, facts: seq<Fact>, f: Fact, system: nat, e: nat, p: Piece)
    requires FactsOk(l, facts) && Earlier(facts, system, System) && facts[system].pending == {}
    requires facts[system].term.Glue?
    requires f.kind == System && f.term == WithPiece(facts[system].term, p)
    requires OwedOn(PieceFaces(facts[system].term.pieces), p.face, f.pending)
    requires |p.face| <= 1
    requires p.face != [] ==>
               && p.face[0].positive !! p.face[0].negative && Names(p.face[0]) !! l.dims(p.typ) + l.dims(p.equivalence)
               && Earlier(facts, e, Typing)
               && InFamily(l, facts[e], p.equivalence, l.equivalences(p.typ, l.restrict(f.term.base, p.face[0])))
    ensures FactsOk(l, facts + [f])
  {
    var now, n, pieces := facts + [f], |facts|, facts[system].term.pieces;
    Lifted(l, facts, f, system);
    PieceAdded(l, now, n, pieces, p, f.pending);
    if p.face != [] { assert now[e] == facts[e]; }
    forall i | 0 <= i < |pieces + [p]| ensures PieceFits(l, now, n, f.term.base, (pieces + [p])[i]) {
      if i < |pieces| { assert (pieces + [p])[i] == pieces[i]; }
    }
    var faces := PieceFaces(pieces + [p]);
    forall i | 0 <= i < |faces| ensures Single(faces[i]) {
      if i < |pieces| { assert faces[i] == PieceFaces(pieces)[i]; }
    }
    FactsAppend(l, facts, f);
  }

  /** A system without pieces. */
  lemma EmptyFact(l: Language, facts: seq<Fact>, f: Fact)
    requires FactsOk(l, facts) && f.kind == System && f.pending == {}
    requires (f.term.Comp? && f.term.tubes == []) || (f.term.Glue? && f.term.pieces == [])
    ensures FactsOk(l, facts + [f])
  {
    assert (facts + [f])[|facts|] == f;
    FactsAppend(l, facts, f);
  }

  lemma StartedFact(l: Language, facts: seq<Fact>, f: Fact, t: nat, a: nat)
    requires FactsOk(l, facts) && Earlier(facts, t, Typing) && Earlier(facts, a, Typing) && l.universe(facts[t].typ)
    requires facts[t].term.Glue?
    requires l.same(facts[a].typ, facts[t].term.base)
    requires f.kind == System && f.term == GlueTerm(facts[t].term, facts[a].term, []) && f.pending == {}
    requires f.how.rule == GlueTermBaseRule && f.how.premises == [t, a]
    ensures FactsOk(l, facts + [f])
  {
    assert (facts + [f])[t] == facts[t] && (facts + [f])[a] == facts[a];
    FactsAppend(l, facts, f);
  }

  lemma ValueFact(l: Language, facts: seq<Fact>, f: Fact, system: nat, v: nat, e: nat, t: Tube)
    requires FactsOk(l, facts) && Earlier(facts, system, System) && facts[system].pending == {}
    requires facts[system].term.GlueTerm?
    requires facts[system].term.glue.Glue? && |facts[system].term.tubes| < |facts[system].term.glue.pieces|
    requires f.kind == System && f.term == WithTube(facts[system].term, t)
    requires f.how.rule == ValueRule && f.how.premises == [system, v, e] && (t.face == [] ==> e == 0)
    requires OwedOn(TubeFaces(facts[system].term.tubes), t.face, f.pending) && forall i :: i in f.pending ==>
               i < OVERLAPS
    requires Earlier(facts, v, Typing) && t.term == facts[v].term
    requires t.face == f.term.glue.pieces[|f.term.tubes| - 1].face
    requires t.face != [] ==>
               var p := f.term.glue.pieces[|f.term.tubes| - 1];
               Earlier(facts, e, Equality) && ValueFitting(l, p, f.term.base, facts[v], facts[e])
    ensures FactsOk(l, facts + [f])
  {
    var now, n, tubes := facts + [f], |facts|, facts[system].term.tubes;
    Lifted(l, facts, f, system);
    TubeAdded(l, now, n, tubes, t, f.pending);
    if t.face != [] { assert now[v] == facts[v] && now[e] == facts[e]; }
    var pieces := f.term.glue.pieces;
    forall i | 0 <= i < |tubes + [t]| ensures ValueFits(l, now, n, f.term.base, pieces[i], (tubes + [t])[i]) {
      if i < |tubes| { assert (tubes + [t])[i] == tubes[i]; }
    }
    FactsAppend(l, facts, f);
  }

  function TubesOf(t: Term): seq<Tube> {
    match t
    case Comp(_, _, tubes, _) => tubes
    case GlueTerm(_, _, tubes) => tubes
    case _ => []
  }

  /** An overlap of tubes shown: it is no longer pending. */
  lemma OverlapFact(l: Language, facts: seq<Fact>, f: Fact, system: nat, position: nat, e: nat)
    requires FactsOk(l, facts) && Earlier(facts, system, System)
    requires (facts[system].term.Comp? || facts[system].term.GlueTerm?)
    requires f.kind == System && f.term == facts[system].term && position in facts[system].pending
    requires f.pending == facts[system].pending - {position} && position < OVERLAPS
    requires f.how.rule == OverlapRule && f.how.premises == [system, e] && f.how.operand == position
    requires Earlier(facts, e, Equality)
    requires var tubes := TubesOf(f.term);
             position + 1 < |tubes| && |tubes[position].face| == |tubes[|tubes| - 1].face| == 1
             && Equates(l, facts[e], tubes[|tubes| - 1].term, tubes[position].term,
                        Overlap(tubes[|tubes| - 1].face[0], tubes[position].face[0]))
    ensures FactsOk(l, facts + [f])
  {
    var now, n, tubes := facts + [f], |facts|, TubesOf(f.term);
    Lifted(l, facts, f, system);
    assert now[e] == facts[e];
    TubePaid(l, now, n, tubes, facts[system].pending, position);
    FactsAppend(l, facts, f);
  }

  lemma GlueOverlapFact(l: Language, facts: seq<Fact>, f: Fact, system: nat, position: nat, t: nat, e: nat)
    requires FactsOk(l, facts) && Earlier(facts, system, System) && facts[system].term.Glue?
    requires f.kind == System && f.term == facts[system].term && position in facts[system].pending
    requires f.pending == facts[system].pending - {position} && position < OVERLAPS
    requires Earlier(facts, t, Equality) && Earlier(facts, e, Equality)
    requires var pieces := f.term.pieces;
             position + 1 < |pieces| && |pieces[position].face| == |pieces[|pieces| - 1].face| == 1
             && (var overlap := Overlap(pieces[|pieces| - 1].face[0], pieces[position].face[0]);
                 Equates(l, facts[t], pieces[|pieces| - 1].typ, pieces[position].typ, overlap)
                 && Equates(l, facts[e], pieces[|pieces| - 1].equivalence, pieces[position].equivalence, overlap))
    ensures FactsOk(l, facts + [f])
  {
    var now, n := facts + [f], |facts|;
    Lifted(l, facts, f, system);
    assert now[e] == facts[e] && now[t] == facts[t];
    PiecePaid(l, now, n, f.term.pieces, facts[system].pending, position);
    FactsAppend(l, facts, f);
  }

  /** A closed judgement takes over what its system has been shown. */
  lemma ClosedFact(l: Language, facts: seq<Fact>, f: Fact, system: nat, tubes: seq<Tube>)
    requires FactsOk(l, facts) && Earlier(facts, system, System) && facts[system].pending == {}
    requires f.kind == Typing && f.pending == {} && f.how.premises == [system]
    requires Closes(l, facts, system, f, tubes)
    ensures FactsOk(l, facts + [f])
  {
    Lifted(l, facts, f, system);
    assert (facts + [f])[|facts|] == f;
    FactsAppend(l, facts, f);
  }

  // ---- Shared steps ------------------------------------------------------------------------

  method Premise(g: Graph, id: nat, kind: Kind) returns (ok: bool)
    requires g.Valid()
    modifies g`failed
    ensures g.Valid() && (old(g.failed) ==> g.failed)
    ensures ok ==> Earlier(g.facts, id, kind) && g.failed == old(g.failed)
    ensures !ok ==> g.failed
  {
    ok := 0 < id < |g.facts| && g.facts[id].kind == kind;
    if !ok { g.failed := true; }
  }

  method Refuse(g: Graph)
    requires g.Valid()
    modifies g`failed
    ensures g.Valid() && g.failed
  {
    g.failed := true;
  }

  /** The earlier pieces whose faces meet a new one's, refused beyond the first 64. */
  method Overlapping(faces: seq<Face>, mine: Face) returns (ok: bool, owed: set<nat>)
    ensures ok ==> OwedOn(faces, mine, owed) && forall i :: i in owed ==> i < OVERLAPS
    ensures ok ==> forall i: nat :: i in owed <==> i < |faces| && FirstsShare(faces[i], mine)
    ensures !ok ==> exists i :: OVERLAPS <= i < |faces| && FirstsShare(faces[i], mine)
  {
    forall i | 0 <= i < |faces| ensures Meets(faces[i], mine) <==> FirstsShare(faces[i], mine) {
      MeetsHolds(faces[i], mine);
    }
    owed := {};
    var index := 0;
    while index < |faces|
      invariant index <= |faces|
      invariant forall i: nat :: i in owed <==> i < index && Meets(faces[i], mine)
      invariant forall i :: i in owed ==> i < OVERLAPS
    {
      if Meets(faces[index], mine) {
        if index >= OVERLAPS { return false, owed; }
        owed := owed + {index};
      }
      index := index + 1;
    }
    ok := true;
  }

  method Merge3(g: Graph, a: nat, b: nat, c: nat) returns (ok: bool, out: nat)
    requires g.Valid() && SetOk(g.entries, g.lists, a) && SetOk(g.entries, g.lists, b) && SetOk(g.entries, g.lists, c)
    modifies g`lists, g`failed
    ensures g.Valid() && g.Grown()
    ensures ok ==> g.failed == old(g.failed) && SetOk(g.entries, g.lists, out)
                   && Members(g.lists[out]) == Members(g.lists[a]) + Members(g.lists[b]) + Members(g.lists[c])
    ensures !ok ==> g.failed
  {
    ghost var before := g.lists;
    var ab;
    ok, ab := g.Merge(a, b);
    if !ok { return false, 0; }
    ContextGrows(g.entries, before, g.entries, g.lists, before[c]);
    ok, out := g.Merge(ab, c);
  }

  ghost function ContextOf(g: Graph, id: nat): set<nat>
    reads g
  {
    if id < |g.facts| && g.facts[id].context < |g.lists| then Members(g.lists[g.facts[id].context]) else {}
  }

  /** A premise's context on a clause. */
  method OnClause(g: Graph, id: nat, clause: DimClause) returns (ok: bool, out: nat)
    requires g.Valid() && 0 < id < |g.facts|
    modifies g`lists, g`failed
    ensures g.Valid() && g.Grown()
    ensures ok ==> g.failed == old(g.failed) && SetOk(g.entries, g.lists, out)
                   && Members(g.lists[out]) == StaysOn(g.entries, ContextOf(g, id), clause)
    ensures !ok ==> g.failed
  {
    assert SetOk(g.entries, g.lists, g.facts[id].context);
    ok, out := g.OnFace(g.facts[id].context, clause);
  }

  /** A context with what a premise needs on a clause. */
  method WithClause(g: Graph, a: nat, id: nat, clause: DimClause) returns (ok: bool, out: nat)
    requires g.Valid() && SetOk(g.entries, g.lists, a) && 0 < id < |g.facts|
    modifies g`lists, g`failed
    ensures g.Valid() && g.Grown()
    ensures ok ==> g.failed == old(g.failed) && SetOk(g.entries, g.lists, out)
                   && Members(g.lists[out]) == Members(g.lists[a]) + StaysOn(g.entries, ContextOf(g, id), clause)
    ensures !ok ==> g.failed
  {
    ghost var before := g.lists;
    ok, out := OnClause(g, id, clause);
    if !ok { return; }
    ContextGrows(g.entries, before, g.entries, g.lists, before[a]);
    ok, out := g.Merge(a, out);
  }

  /** A context with what two premises need on a clause. */
  method WithClauses(g: Graph, a: nat, t: nat, e: nat, clause: DimClause) returns (ok: bool, out: nat)
    requires g.Valid() && SetOk(g.entries, g.lists, a) && 0 < t < |g.facts| && 0 < e < |g.facts|
    modifies g`lists, g`failed
    ensures g.Valid() && g.Grown()
    ensures ok ==> g.failed == old(g.failed) && SetOk(g.entries, g.lists, out)
                   && Members(g.lists[out]) == Members(g.lists[a]) + StaysOn(g.entries, ContextOf(g, t), clause)
                                               + StaysOn(g.entries, ContextOf(g, e), clause)
    ensures !ok ==> g.failed
  {
    ghost var before := g.lists;
    var b, c;
    ok, b := OnClause(g, t, clause);
    if !ok { return false, 0; }
    ContextGrows(g.entries, before, g.entries, g.lists, before[a]);
    ghost var between := g.lists;
    ok, c := OnClause(g, e, clause);
    if !ok { return false, 0; }
    ContextGrows(g.entries, between, g.entries, g.lists, between[a]);
    ContextGrows(g.entries, between, g.entries, g.lists, between[b]);
    ok, out := Merge3(g, a, b, c);
  }

  /** The union of two premises' contexts. */
  method MergePremises(g: Graph, a: nat, b: nat) returns (ok: bool, out: nat)
    requires g.Valid() && !g.failed && 0 < a < |g.facts| && 0 < b < |g.facts|
    modifies g`lists, g`failed
    ensures g.Valid() && g.Grown()
    ensures ok ==> !g.failed && SetOk(g.entries, g.lists, out)
                   && Members(g.lists[out]) == ContextOf(g, a) + ContextOf(g, b)
    ensures !ok ==> g.failed
  {
    assert SetOk(g.entries, g.lists, g.facts[a].context) && SetOk(g.entries, g.lists, g.facts[b].context);
    ok, out := g.Merge(g.facts[a].context, g.facts[b].context);
  }

  /** What an instruction publishes is in the store under its derivation: a judgement found
      again, or one new judgement at the end. */
  ghost predicate Derived(g: Graph, before: seq<Fact>, id: nat, how: Derivation)
    reads g
  {
    && (id == 0 ==> g.failed) && (id != 0 ==> id < |g.facts| && g.facts[id].how == how)
    && if id < |before| then g.facts == before else id == |before| < |g.facts| && g.facts == before + [g.facts[id]]
  }

  /** A system's judgement. */
  predicate Building(f: Fact, term: Term, typ: Term, pending: set<nat>) {
    f.kind == System && f.term == term && f.typ == typ && f.pending == pending
  }

  /** A closed judgement. */
  predicate Closed(f: Fact, term: Term, typ: Term) {
    f.kind == Typing && f.term == term && f.typ == typ && f.pending == {}
  }

  function Started(term: Term, typ: Term, context: nat, how: Derivation): Fact {
    Fact(System, term, Handle(0), typ, context, how, {})
  }

  /** A system with nothing owed, in the union of two premises' contexts. */
  method PublishStarted(g: Graph, a: nat, b: nat, term: Term, typ: Term, how: Derivation) returns (id: nat)
    requires g.Valid() && !g.failed && 0 < a < |g.facts| && 0 < b < |g.facts|
    requires forall context: nat :: FactsOk(g.language, g.facts + [Started(term, typ, context, how)])
    requires forall i :: 0 < i < |g.facts| ==> g.facts[i].how != how
    modifies g`lists, g`facts, g`failed, g.derivations, g.derivations.slots
    ensures g.Valid() && Derived(g, old(g.facts), id, how)
    ensures id != 0 ==>
              && id == |old(g.facts)| && Building(g.facts[id], term, typ, {})
              && ContextOf(g, id) == ContextOf(g, a) + ContextOf(g, b)
  {
    var ok, context := MergePremises(g, a, b);
    if !ok { return 0; }
    id := g.Publish(Started(term, typ, context, how));
  }

  // ---- Compositions --------------------------------------------------------------------------

  /** Starts a composition: a family along a dimension, and a base in it at 0. */
  method StartSystem(g: Graph, dimension: nat, family: nat, base: nat) returns (id: nat)
    requires g.Valid()
    modifies g, g.derivations, g.derivations.slots
    ensures g.Valid() && Derived(g, old(g.facts), id, Derivation(SystemRule, [family, base], dimension, [], 0, []))
    ensures id != 0 && id == |old(g.facts)| ==>
              && 0 < dimension < |g.entries| && g.entries[dimension].role == DimensionRole
              && Earlier(old(g.facts), family, Typing) && Earlier(old(g.facts), base, Typing)
              && var a, b, i, l := old(g.facts)[family], old(g.facts)[base], g.entries[dimension].symbol, g.language;
                 && l.same(b.typ, l.endpoint(a.term, i, false)) && i !in l.dims(b.term)
                 && Building(g.facts[id], Comp(i, a.term, [], b.term), l.endpoint(a.term, i, true), {})
                 && ContextOf(g, id) == ContextOf(g, family) + ContextOf(g, base)
  {
    var how := Derivation(SystemRule, [family, base], dimension, [], 0, []);
    var new', found := g.Begin(how);
    if !new' { return found; }
    id := 0;
    var ok := Premise(g, family, Typing);
    if !ok { return; }
    ok := Premise(g, base, Typing);
    if !ok { return; }
    if dimension == 0 || dimension >= |g.entries| || g.entries[dimension].role != DimensionRole {
      Refuse(g);
      return;
    }
    var a, b, i, l := g.facts[family], g.facts[base], g.entries[dimension].symbol, g.language;
    if !l.universe(a.typ) || !l.same(b.typ, l.endpoint(a.term, i, false)) || i in l.dims(b.term) {
      Refuse(g);
      return;
    }
    var term, typ := Comp(i, a.term, [], b.term), l.endpoint(a.term, i, true);
    forall context: nat ensures FactsOk(l, g.facts + [Started(term, typ, context, how)]) {
      EmptyFact(l, g.facts, Started(term, typ, context, how));
    }
    id := PublishStarted(g, family, base, term, typ, how);
  }

  /** Whether a tube may be added on a clause: it is in the family and starts at the base
      there, and is restricted to it already. */
  predicate TubeFitting(l: Language, comp: Term, clause: DimClause, u: Fact, e: Fact)
    requires comp.Comp?
  {
    && clause.positive !! clause.negative && comp.dimension !in Names(clause) && Names(clause) !! l.dims(u.term)
    && l.same(u.typ, l.restrict(comp.family, clause))
    && l.same(e.term, l.endpoint(u.term, comp.dimension, false)) && l.same(e.other, l.restrict(comp.base, clause))
  }

  /** A composition with nothing pending, or a refusal. */
  method OpenSystem(g: Graph, system: nat) returns (ok: bool)
    requires g.Valid()
    modifies g`failed
    ensures g.Valid() && (old(g.failed) ==> g.failed)
    ensures ok ==> Earlier(g.facts, system, System) && g.facts[system].pending == {} && g.failed == old(g.failed)
    ensures !ok ==> g.failed
  {
    ok := Premise(g, system, System);
    if ok && g.facts[system].pending != {} {
      Refuse(g);
      ok := false;
    }
  }

  /** A tube on the face 0: nothing is required of it. */
  method AddUnusedTube(g: Graph, system: nat, u: nat, how: Derivation) returns (id: nat)
    requires g.Valid() && !g.failed && Earlier(g.facts, system, System) && g.facts[system].pending == {}
    requires g.facts[system].term.Comp?
    requires Earlier(g.facts, u, Typing) && forall i :: 0 < i < |g.facts| ==> g.facts[i].how != how
    modifies g, g.derivations, g.derivations.slots
    ensures g.Valid() && Derived(g, old(g.facts), id, how)
    ensures id != 0 ==>
              && id == |old(g.facts)|
              && Building(g.facts[id], WithTube(old(g.facts)[system].term, Tube([], old(g.facts)[u].term)),
                          old(g.facts)[system].typ, {})
              && ContextOf(g, id) == ContextOf(g, system) + ContextOf(g, u)
  {
    var s, t := g.facts[system], Tube([], g.facts[u].term);
    id := 0;
    var term := WithTube(s.term, t);
    forall context: nat ensures FactsOk(g.language, g.facts + [Started(term, s.typ, context, how)]) {
      TubeFact(g.language, g.facts, Started(term, s.typ, context, how), system, u, u, t);
    }
    id := PublishStarted(g, system, u, term, s.typ, how);
  }

  /** A tube on a clause. It is owed an agreement with every earlier tube that it meets. */
  method AddTubeOn(g: Graph, system: nat, clause: DimClause, u: nat, e: nat, how: Derivation) returns (id: nat)
    requires g.Valid() && !g.failed && Earlier(g.facts, system, System) && g.facts[system].pending == {}
    requires g.facts[system].term.Comp?
    requires Earlier(g.facts, u, Typing) && Earlier(g.facts, e, Equality)
    requires forall i :: 0 < i < |g.facts| ==> g.facts[i].how != how
    modifies g, g.derivations, g.derivations.slots, g.symbols, g.symbols.slots
    ensures g.Valid() && Derived(g, old(g.facts), id, how)
    ensures id != 0 ==>
              && id == |old(g.facts)| && TubeFitting(g.language, old(g.facts)[system].term, clause, old(g.facts)[u],
                                                     old(g.facts)[e])
              && Building(g.facts[id], WithTube(old(g.facts)[system].term, Tube([clause], old(g.facts)[u].term)),
                          old(g.facts)[system].typ, g.facts[id].pending)
              && OwedOn(TubeFaces(old(g.facts)[system].term.tubes), [clause], g.facts[id].pending)
              && PieceContext(g.entries, g.lists, old(g.facts)[system], old(g.facts)[u], old(g.facts)[e], clause,
                              Names(clause), g.facts[id].context)
  {
    var s, l := g.facts[system], g.language;
    var t := Tube([clause], g.facts[u].term);
    id := 0;
    if !TubeFitting(l, s.term, clause, g.facts[u], g.facts[e]) {
      Refuse(g);
      return;
    }
    var ok, owed := Overlapping(TubeFaces(s.term.tubes), t.face);
    if !ok {
      Refuse(g);
      return;
    }
    var context;
    ok, context := TubeContext(g, system, clause, u, e, Names(clause));
    if !ok { return; }
    var f := Fact(System, WithTube(s.term, t), Handle(0), s.typ, context, how, owed);
    TubeFact(l, g.facts, f, system, u, e, t);
    id := g.Publish(f);
  }

  /** The context of a system with one more piece on a clause: the system's, the two
      premises' on the clause, and the dimensions of the piece's face. */
  ghost predicate PieceContext(entries: seq<Entry>, lists: seq<seq<nat>>, s: Fact, u: Fact, e: Fact, clause: DimClause,
                               names: set<Dim>, context: nat) {
    && context < |lists| && s.context < |lists| && u.context < |lists| && e.context < |lists|
    && exists dims: seq<nat> :: DimensionsOf(entries, dims, names)
         && Members(lists[context]) == Members(lists[s.context]) + StaysOn(entries, Members(lists[u.context]), clause)
                                       + StaysOn(entries, Members(lists[e.context]), clause) + Members(dims)
  }

  method TubeContext(g: Graph, system: nat, clause: DimClause, u: nat, e: nat, names: set<Dim>)
    returns (ok: bool, context: nat)
    requires g.Valid() && !g.failed && 0 < system < |g.facts| && 0 < u < |g.facts| && 0 < e < |g.facts|
    modifies g, g.symbols, g.symbols.slots
    ensures g.Valid() && g.facts == old(g.facts)
    ensures ok ==>
              && !g.failed && SetOk(g.entries, g.lists, context)
              && PieceContext(g.entries, g.lists, g.facts[system], g.facts[u], g.facts[e], clause, names, context)
    ensures !ok ==> g.failed
  {
    context := 0;
    var a, b, dims;
    assert SetOk(g.entries, g.lists, g.facts[u].context) && SetOk(g.entries, g.lists, g.facts[e].context);
    ghost var x, y := g.lists[g.facts[u].context], g.lists[g.facts[e].context];
    ok, a := OnClause(g, u, clause);
    if !ok { return; }
    ghost var entries0, lists0 := g.entries, g.lists;
    ok, b := OnClause(g, e, clause);
    if !ok { return; }
    ContextGrows(entries0, old(g.lists), entries0, lists0, x);
    OnFaceGrows(entries0, lists0, g.entries, g.lists, x, clause, a);
    ContextGrows(entries0, old(g.lists), entries0, g.lists, x);
    ContextGrows(entries0, old(g.lists), entries0, g.lists, y);
    entries0, lists0 := g.entries, g.lists;
    ok, dims := g.DimensionContext(names);
    if !ok { return; }
    OnFaceGrows(entries0, lists0, g.entries, g.lists, x, clause, a);
    OnFaceGrows(entries0, lists0, g.entries, g.lists, y, clause, b);
    ok, context := PieceMerge(g, system, clause, u, e, a, b, dims, names);
  }

  method PieceMerge(g: Graph, system: nat, clause: DimClause, ghost u: nat, ghost e: nat, a: nat, b: nat, dims: nat,
                    ghost names: set<Dim>) returns (ok: bool, context: nat)
    requires g.Valid() && !g.failed && 0 < system < |g.facts| && 0 < u < |g.facts| && 0 < e < |g.facts|
    requires SetOk(g.entries, g.lists, g.facts[u].context) && SetOk(g.entries, g.lists, g.facts[e].context)
    requires OnFaceIs(g.entries, g.lists, g.lists[g.facts[u].context], clause, a)
    requires OnFaceIs(g.entries, g.lists, g.lists[g.facts[e].context], clause, b)
    requires SetOk(g.entries, g.lists, dims) && DimensionsOf(g.entries, g.lists[dims], names)
    modifies g`lists, g`failed
    ensures g.Valid()
    ensures ok ==>
              && !g.failed && SetOk(g.entries, g.lists, context)
              && PieceContext(g.entries, g.lists, g.facts[system], g.facts[u], g.facts[e], clause, names, context)
    ensures !ok ==> g.failed
  {
    assert SetOk(g.entries, g.lists, g.facts[system].context);
    ghost var lists0 := g.lists;
    ok, context := g.Merge(g.facts[system].context, a);
    if !ok { return; }
    ContextGrows(g.entries, lists0, g.entries, g.lists, lists0[b]);
    ContextGrows(g.entries, lists0, g.entries, g.lists, lists0[dims]);
    ok, context := Merge3(g, context, b, dims);
    if ok { assert DimensionsOf(g.entries, lists0[dims], names); }
  }

  method AddTube(g: Graph, system: nat, face: seq<DimClause>, u: nat, e: nat) returns (id: nat)
    requires g.Valid()
    modifies g, g.derivations, g.derivations.slots, g.symbols, g.symbols.slots
    ensures g.Valid() && Derived(g, old(g.facts), id, Derivation(TubeRule, [system, u, e], 0, face, 0, []))
    ensures id != 0 && id == |old(g.facts)| ==>
              && Earlier(old(g.facts), system, System) && old(g.facts)[system].pending == {}
              && old(g.facts)[system].term.Comp? && Earlier(old(g.facts), u, Typing) && |face| <= 1
              && var s, t := old(g.facts)[system], Tube(face, old(g.facts)[u].term);
                 && Building(g.facts[id], WithTube(s.term, t), s.typ, g.facts[id].pending)
                 && OwedOn(TubeFaces(s.term.tubes), face, g.facts[id].pending)
                 && if face == [] then ContextOf(g, id) == ContextOf(g, system) + ContextOf(g, u)
                    else
                      && Earlier(old(g.facts), e, Equality)
                      && TubeFitting(g.language, s.term, face[0], old(g.facts)[u], old(g.facts)[e])
                      && PieceContext(g.entries, g.lists, s, old(g.facts)[u], old(g.facts)[e], face[0], Names(face[0]),
                                      g.facts[id].context)
  {
    var how := Derivation(TubeRule, [system, u, e], 0, face, 0, []);
    var new', found := g.Begin(how);
    if !new' { return found; }
    id := 0;
    var ok := OpenSystem(g, system);
    if !ok { return; }
    ok := Premise(g, u, Typing);
    if !ok { return; }
    if !g.facts[system].term.Comp? || |face| > 1 || (face == [] && e != 0) {
      Refuse(g);
      return;
    }
    if face == [] {
      id := AddUnusedTube(g, system, u, how);
      return;
    }
    ok := Premise(g, e, Equality);
    if !ok { return; }
    assert face == [face[0]];
    id := AddTubeOn(g, system, face[0], u, e, how);
  }

  /** The joined clause of the last face and the one at a position. */
  function LastOverlap(faces: seq<Face>, position: nat): DimClause {
    if position < |faces| && faces[position] != [] && faces[|faces| - 1] != []
    then Overlap(faces[|faces| - 1][0], faces[position][0]) else Top()
  }

  /** The equality is of the last tube and the one at the position, on the joined clause
      of their faces. */
  predicate Paid(l: Language, term: Term, position: nat, e: Fact) {
    var tubes := TubesOf(term);
    && position + 1 < |tubes| && |tubes[position].face| == |tubes[|tubes| - 1].face| == 1
    && Equates(l, e, tubes[|tubes| - 1].term, tubes[position].term, LastOverlap(TubeFaces(tubes), position))
  }

  /** The last tube and the tube at a position agree on the overlap of their faces. Both a
      composition's tubes and a Glue term's values are shown to agree so. */
  method ShowOverlap(g: Graph, system: nat, position: nat, e: nat) returns (id: nat)
    requires g.Valid()
    modifies g, g.derivations, g.derivations.slots
    ensures g.Valid() && Derived(g, old(g.facts), id, Derivation(OverlapRule, [system, e], 0, [], position, []))
    ensures id != 0 && id == |old(g.facts)| ==>
              && Earlier(old(g.facts), system, System) && Earlier(old(g.facts), e, Equality)
              && var s := old(g.facts)[system];
                 && position in s.pending && Paid(g.language, s.term, position, old(g.facts)[e])
                 && Building(g.facts[id], s.term, s.typ, s.pending - {position})
                 && ContextOf(g, id) == ContextOf(g, system)
                                        + StaysOn(g.entries, ContextOf(g, e),
                                                  LastOverlap(TubeFaces(TubesOf(s.term)), position))
  {
    var how := Derivation(OverlapRule, [system, e], 0, [], position, []);
    var new', found := g.Begin(how);
    if !new' { return found; }
    id := 0;
    var ok := Premise(g, system, System);
    if !ok { return; }
    ok := Premise(g, e, Equality);
    if !ok { return; }
    if !(g.facts[system].term.Comp? || g.facts[system].term.GlueTerm?) || position >= OVERLAPS
        || position !in g.facts[system].pending {
      Refuse(g);
      return;
    }
    PendingMeets(g, system, position);
    id := PayOverlap(g, system, position, e, how);
  }

  lemma PendingMeets(g: Graph, system: nat, position: nat)
    requires g.Valid() && Earlier(g.facts, system, System) && position in g.facts[system].pending
    ensures g.facts[system].term.Comp? || g.facts[system].term.GlueTerm? ==>
              OwedTube(TubesOf(g.facts[system].term), position)
    ensures g.facts[system].term.Glue? ==> OwedPiece(g.facts[system].term.pieces, position)
  {
    assert FactOk(g.language, g.facts, system);
  }

  method PayOverlap(g: Graph, system: nat, position: nat, e: nat, how: Derivation) returns (id: nat)
    requires g.Valid() && Earlier(g.facts, system, System)
    requires (g.facts[system].term.Comp? || g.facts[system].term.GlueTerm?)
    requires Earlier(g.facts, e, Equality) && position in g.facts[system].pending
    requires OwedTube(TubesOf(g.facts[system].term), position)
    requires position < OVERLAPS && how == Derivation(OverlapRule, [system, e], 0, [], position, [])
    requires forall i :: 0 < i < |g.facts| ==> g.facts[i].how != how
    modifies g, g.derivations, g.derivations.slots
    ensures g.Valid() && Derived(g, old(g.facts), id, how)
    ensures id != 0 ==>
              && id == |old(g.facts)| && Paid(g.language, old(g.facts)[system].term, position, old(g.facts)[e])
              && Building(g.facts[id], old(g.facts)[system].term, old(g.facts)[system].typ,
                          old(g.facts)[system].pending - {position})
              && ContextOf(g, id)
                 == ContextOf(g, system)
                    + StaysOn(g.entries, ContextOf(g, e),
                              LastOverlap(TubeFaces(TubesOf(old(g.facts)[system].term)), position))
  {
    var s, tubes := g.facts[system], TubesOf(g.facts[system].term);
    id := 0;
    if !Paid(g.language, s.term, position, g.facts[e]) {
      Refuse(g);
      return;
    }
    var overlap := LastOverlap(TubeFaces(tubes), position);
    assert SetOk(g.entries, g.lists, s.context);
    var ok, context := WithClause(g, s.context, e, overlap);
    if !ok { return; }
    id := PublishPaid(g, system, position, e, how, context);
  }

  method PublishPaid(g: Graph, system: nat, position: nat, ghost e: nat, how: Derivation, context: nat)
    returns (id: nat)
    requires g.Valid() && Earlier(g.facts, system, System) && Earlier(g.facts, e, Equality)
    requires (g.facts[system].term.Comp? || g.facts[system].term.GlueTerm?) && position in g.facts[system].pending
    requires Paid(g.language, g.facts[system].term, position, g.facts[e]) && SetOk(g.entries, g.lists, context)
    requires position < OVERLAPS && how == Derivation(OverlapRule, [system, e], 0, [], position, [])
    requires forall i :: 0 < i < |g.facts| ==> g.facts[i].how != how
    modifies g`facts, g`failed, g.derivations, g.derivations.slots
    ensures g.Valid() && Derived(g, old(g.facts), id, how)
    ensures id != 0 ==>
              && id == |old(g.facts)| && g.facts[id].context == context
              && Building(g.facts[id], old(g.facts)[system].term, old(g.facts)[system].typ,
                          old(g.facts)[system].pending - {position})
  {
    var s := g.facts[system];
    var f := Fact(System, s.term, Handle(0), s.typ, context, how, s.pending - {position});
    OverlapFact(g.language, g.facts, f, system, position, e);
    id := g.Publish(f);
  }

  /** The entries of a context but a composition's dimension, with a face's dimensions. */
  ghost predicate ClosedContext(entries: seq<Entry>, items: seq<nat>, all: set<nat>, dimension: nat, names: set<Dim>) {
    if names == {} then Members(items) == WithoutDimension(entries, all, dimension)
    else
      exists dims: seq<nat> :: DimensionsOf(entries, dims, names)
        && Members(items) == WithoutDimension(entries, all, dimension) + Members(dims)
  }

  /** The context without a composition's dimension, and with a face's. */
  method CloseContext(g: Graph, a: nat, dimension: nat, names: set<Dim>) returns (ok: bool, context: nat)
    requires g.Valid() && !g.failed && SetOk(g.entries, g.lists, a)
    modifies g, g.symbols, g.symbols.slots
    ensures g.Valid() && g.facts == old(g.facts)
    ensures ok ==> !g.failed && SetOk(g.entries, g.lists, context)
    ensures ok ==> ClosedContext(g.entries, g.lists[context], old(Members(g.lists[a])), dimension, names)
    ensures !ok ==> g.failed
  {
    ok, context := DropDimension(g, a, dimension);
    if !ok || names == {} { return; }
    ghost var between := g.entries;
    ok, context := WithDimensions(g, context, names);
    if !ok { return; }
    WithoutGrows(between, g.entries, old(Members(g.lists[a])), dimension);
  }

  method DropDimension(g: Graph, a: nat, dimension: nat) returns (ok: bool, out: nat)
    requires g.Valid() && !g.failed && SetOk(g.entries, g.lists, a)
    modifies g, g.symbols, g.symbols.slots
    ensures g.Valid() && g.Grown() && g.facts == old(g.facts)
    ensures g.symbols.slots == old(g.symbols.slots) || fresh(g.symbols.slots)
    ensures forall x :: x in old(Members(g.lists[a])) ==> x < |g.entries|
    ensures ok ==>
              && !g.failed && SetOk(g.entries, g.lists, out)
              && Members(g.lists[out]) == WithoutDimension(g.entries, old(Members(g.lists[a])), dimension)
    ensures !ok ==> g.failed
  {
    ok, out := false, 0;
    ghost var entries0, lists0 := g.entries, g.lists;
    g.MembersLive(a);
    var entry := g.DimensionEntry(dimension);
    if entry == 0 { return; }
    ContextGrows(entries0, lists0, g.entries, g.lists, lists0[a]);
    g.MembersLive(a);
    ok, out := g.Discharge(a, [entry]);
    if !ok { return; }
    DischargedDimension(g, entry, g.lists[out], Members(g.lists[a]));
  }

  /** A context with a face's dimensions. */
  method WithDimensions(g: Graph, a: nat, names: set<Dim>) returns (ok: bool, out: nat)
    requires g.Valid() && !g.failed && SetOk(g.entries, g.lists, a)
    modifies g, g.symbols, g.symbols.slots
    ensures g.Valid() && g.Grown() && g.facts == old(g.facts)
    ensures ok ==>
              && !g.failed && SetOk(g.entries, g.lists, out)
              && exists dims: seq<nat> :: DimensionsOf(g.entries, dims, names)
                   && Members(g.lists[out]) == old(Members(g.lists[a])) + Members(dims)
    ensures !ok ==> g.failed
  {
    ghost var entries0, lists0 := g.entries, g.lists;
    var dims;
    ok, dims := g.DimensionContext(names);
    if !ok { return false, 0; }
    ContextGrows(entries0, lists0, g.entries, g.lists, lists0[a]);
    ghost var items := g.lists[dims];
    ok, out := g.Merge(a, dims);
  }

  /** Publishes a closed judgement for a system with nothing pending. */
  method Close(g: Graph, system: nat, term: Term, context: nat, how: Derivation, ghost tubes: seq<Tube>)
    returns (id: nat)
    requires g.Valid() && Earlier(g.facts, system, System) && g.facts[system].pending == {}
    requires SetOk(g.entries, g.lists, context)
    requires forall i :: 0 < i < |g.facts| ==> g.facts[i].how != how
    requires how.premises == [system]
    requires Closes(g.language, g.facts, system, Fact(Typing, term, Handle(0), g.facts[system].typ, context, how, {}),
                    tubes)
    modifies g`facts, g`failed, g.derivations, g.derivations.slots
    ensures g.Valid() && Derived(g, old(g.facts), id, how)
    ensures id != 0 ==>
              && id == |old(g.facts)| && Closed(g.facts[id], term, old(g.facts)[system].typ)
              && g.facts[id].context == context
  {
    var f := Fact(Typing, term, Handle(0), g.facts[system].typ, context, how, {});
    ClosedFact(g.language, g.facts, f, system, tubes);
    id := g.Publish(f);
  }

  ghost predicate Closes(l: Language, facts: seq<Fact>, system: nat, f: Fact, tubes: seq<Tube>)
    requires system < |facts|
  {
    var s := facts[system].term;
    match f.how.rule
    case CompRule => s.Comp? && f.term == s
    case HCompRule => s.Comp? && f.term == HComp(s.dimension, s.family, s.tubes, s.base)
    case TransRule =>
      s.Comp? && s.tubes == tubes && f.term.Trans? && ConstantTubes(l, tubes, f.term.clauses, s.base)
      && f.term == Trans(s.dimension, s.family, f.term.clauses, s.base)
    case GlueRule => s.Glue? && f.term == s
    case GlueTermRule => s.GlueTerm? && f.term == s && s.glue.Glue? && |s.tubes| == |s.glue.pieces|
    case _ => false
  }

  lemma DischargedDimension(g: Graph, entry: nat, items: seq<nat>, all: set<nat>)
    requires g.Valid() && 0 < entry < |g.entries| && g.entries[entry].role == DimensionRole
    requires ContextOk(g.entries, g.lists, items) && Members(items) == all - Members([entry])
    requires forall x :: x in all ==> 0 < x < |g.entries|
    ensures Members(items) == WithoutDimension(g.entries, all, g.entries[entry].symbol)
  {
    assert Members([entry]) == {entry};
    forall x | x in all && g.entries[x].role == DimensionRole
        && g.entries[x].symbol == g.entries[entry].symbol ensures x == entry {
      assert Clash(g.entries[x], g.entries[entry]) && Clash(g.entries[entry], g.entries[x]);
    }
  }

  method CloseComp(g: Graph, system: nat) returns (id: nat)
    requires g.Valid()
    modifies g, g.derivations, g.derivations.slots, g.symbols, g.symbols.slots
    ensures g.Valid() && Derived(g, old(g.facts), id, Derivation(CompRule, [system], 0, [], 0, []))
    ensures id != 0 && id == |old(g.facts)| ==>
              && Earlier(old(g.facts), system, System) && old(g.facts)[system].term.Comp?
              && var s := old(g.facts)[system];
                 && s.pending == {} && Closed(g.facts[id], s.term, s.typ)
                 && ContextOf(g, id) == WithoutDimension(g.entries, old(ContextOf(g, system)), s.term.dimension)
  {
    var how := Derivation(CompRule, [system], 0, [], 0, []);
    var new', found := g.Begin(how);
    if !new' { return found; }
    id := 0;
    var ok := OpenSystem(g, system);
    if !ok { return; }
    var t := g.facts[system].term;
    if !t.Comp? {
      Refuse(g);
      return;
    }
    var context;
    assert SetOk(g.entries, g.lists, g.facts[system].context);
    ok, context := CloseContext(g, g.facts[system].context, t.dimension, {});
    if !ok { return; }
    id := Close(g, system, t, context, how, []);
  }

  method CloseHComp(g: Graph, system: nat) returns (id: nat)
    requires g.Valid()
    modifies g, g.derivations, g.derivations.slots, g.symbols, g.symbols.slots
    ensures g.Valid() && Derived(g, old(g.facts), id, Derivation(HCompRule, [system], 0, [], 0, []))
    ensures id != 0 && id == |old(g.facts)| ==>
              && Earlier(old(g.facts), system, System) && old(g.facts)[system].term.Comp?
              && var s := old(g.facts)[system];
                 && s.pending == {}
                 && Closed(g.facts[id], HComp(s.term.dimension, s.term.family, s.term.tubes, s.term.base), s.typ)
                 && ContextOf(g, id) == WithoutDimension(g.entries, old(ContextOf(g, system)), s.term.dimension)
  {
    var how := Derivation(HCompRule, [system], 0, [], 0, []);
    var new', found := g.Begin(how);
    if !new' { return found; }
    id := 0;
    var ok := OpenSystem(g, system);
    if !ok { return; }
    var t := g.facts[system].term;
    if !t.Comp? || t.dimension in g.language.dims(t.family) || !g.language.formal(t.family) {
      Refuse(g);
      return;
    }
    var context;
    assert SetOk(g.entries, g.lists, g.facts[system].context);
    ok, context := CloseContext(g, g.facts[system].context, t.dimension, {});
    if !ok { return; }
    id := Close(g, system, HComp(t.dimension, t.family, t.tubes, t.base), context, how, []);
  }

  /** Whether a composition's tubes are a face's clauses in order, each the base there. */
  method TransportTubes(l: Language, tubes: seq<Tube>, face: seq<DimClause>, base: Term) returns (ok: bool)
    ensures ok <==> ConstantTubes(l, tubes, face, base)
  {
    if |tubes| != |face| { return false; }
    var i := 0;
    while i < |tubes|
      invariant i <= |tubes|
      invariant forall j :: 0 <= j < i ==>
                  tubes[j].face == [face[j]] && l.same(tubes[j].term, l.restrict(base, face[j]))
    {
      if tubes[i].face != [face[i]] || !l.same(tubes[i].term, l.restrict(base, face[i])) { return false; }
      i := i + 1;
    }
    return true;
  }

  function FaceNames(face: seq<DimClause>): set<Dim> {
    if face == [] then {} else FaceNames(face[..|face| - 1]) + Names(face[|face| - 1])
  }

  /** A transport: the composition whose tubes are its base, constantly. */
  method CloseTrans(g: Graph, system: nat, face: seq<DimClause>) returns (id: nat)
    requires g.Valid()
    modifies g, g.derivations, g.derivations.slots, g.symbols, g.symbols.slots
    ensures g.Valid() && Derived(g, old(g.facts), id, Derivation(TransRule, [system], 0, face, 0, []))
    ensures id != 0 && id == |old(g.facts)| ==>
              && Earlier(old(g.facts), system, System) && old(g.facts)[system].term.Comp?
              && var s := old(g.facts)[system];
                 && s.pending == {} && ConstantTubes(g.language, s.term.tubes, face, s.term.base)
                 && Closed(g.facts[id], Trans(s.term.dimension, s.term.family, face, s.term.base), s.typ)
                 && g.facts[id].context < |g.lists|
                 && ClosedContext(g.entries, g.lists[g.facts[id].context], old(ContextOf(g, system)), s.term.dimension,
                                  FaceNames(face))
  {
    var how := Derivation(TransRule, [system], 0, face, 0, []);
    var new', found := g.Begin(how);
    if !new' { return found; }
    id := 0;
    var ok := OpenSystem(g, system);
    if !ok { return; }
    var t := g.facts[system].term;
    if !t.Comp? {
      Refuse(g);
      return;
    }
    var constant := TransportTubes(g.language, t.tubes, face, t.base);
    if !constant || !g.language.formal(t.family) {
      Refuse(g);
      return;
    }
    var context;
    assert SetOk(g.entries, g.lists, g.facts[system].context);
    ok, context := CloseContext(g, g.facts[system].context, t.dimension, FaceNames(face));
    if !ok { return; }
    id := Close(g, system, Trans(t.dimension, t.family, face, t.base), context, how, t.tubes);
  }

  // ---- Glue ----------------------------------------------------------------------------------

  method StartGlue(g: Graph, base: nat) returns (id: nat)
    requires g.Valid()
    modifies g, g.derivations, g.derivations.slots
    ensures g.Valid() && Derived(g, old(g.facts), id, Derivation(GlueBaseRule, [base], 0, [], 0, []))
    ensures id != 0 && id == |old(g.facts)| ==>
              && Earlier(old(g.facts), base, Typing) && g.facts[id].context == old(g.facts)[base].context
              && Building(g.facts[id], Glue(old(g.facts)[base].term, []), old(g.facts)[base].typ, {})
  {
    var how := Derivation(GlueBaseRule, [base], 0, [], 0, []);
    var new', found := g.Begin(how);
    if !new' { return found; }
    id := 0;
    var ok := Premise(g, base, Typing);
    if !ok { return; }
    var a := g.facts[base];
    if !g.language.universe(a.typ) {
      Refuse(g);
      return;
    }
    assert SetOk(g.entries, g.lists, a.context);
    var f := Fact(System, Glue(a.term, []), Handle(0), a.typ, a.context, how, {});
    EmptyFact(g.language, g.facts, f);
    id := g.Publish(f);
  }

  /** A piece on a face, or on the face 0, where nothing is required of it. */
  method AddPiece(g: Graph, system: nat, face: seq<DimClause>, typ: nat, equivalence: nat) returns (id: nat)
    requires g.Valid()
    modifies g, g.derivations, g.derivations.slots, g.symbols, g.symbols.slots
    ensures g.Valid() && Derived(g, old(g.facts), id, Derivation(PieceRule, [system, typ, equivalence], 0, face, 0, []))
    ensures id != 0 && id == |old(g.facts)| ==>
              && Earlier(old(g.facts), system, System) && old(g.facts)[system].pending == {}
              && old(g.facts)[system].term.Glue? && |face| <= 1
              && Earlier(old(g.facts), typ, Typing) && Earlier(old(g.facts), equivalence, Typing)
              && var s, t, e := old(g.facts)[system], old(g.facts)[typ], old(g.facts)[equivalence];
                 && Building(g.facts[id], WithPiece(s.term, Piece(face, t.term, e.term)),
                             g.language.join(t.typ, s.typ), g.facts[id].pending)
                 && OwedOn(PieceFaces(s.term.pieces), face, g.facts[id].pending)
                 && (face != [] ==>
                       && PieceFitting(g.language, s.term.base, face[0], t, e)
                       && PieceContext(g.entries, g.lists, s, t, e, face[0], FaceNames(face), g.facts[id].context))
  {
    var how := Derivation(PieceRule, [system, typ, equivalence], 0, face, 0, []);
    var new', found := g.Begin(how);
    if !new' { return found; }
    id := 0;
    var ok := OpenSystem(g, system);
    if !ok { return; }
    ok := Premise(g, typ, Typing);
    if !ok { return; }
    ok := Premise(g, equivalence, Typing);
    if !ok { return; }
    if !g.facts[system].term.Glue? || |face| > 1 || !g.language.universe(g.facts[system].typ)
        || !g.language.universe(g.facts[typ].typ) {
      Refuse(g);
      return;
    }
    id := AddPieceOn(g, system, face, typ, equivalence, how);
  }

  predicate PieceFitting(l: Language, base: Term, clause: DimClause, t: Fact, e: Fact) {
    && clause.positive !! clause.negative && Names(clause) !! l.dims(t.term) + l.dims(e.term)
    && l.same(e.typ, l.equivalences(t.term, l.restrict(base, clause)))
  }

  method AddPieceOn(g: Graph, system: nat, face: Face, t: nat, e: nat, how: Derivation) returns (id: nat)
    requires g.Valid() && !g.failed && Earlier(g.facts, system, System) && g.facts[system].pending == {}
    requires g.facts[system].term.Glue?
    requires Earlier(g.facts, t, Typing) && Earlier(g.facts, e, Typing) && |face| <= 1
    requires forall i :: 0 < i < |g.facts| ==> g.facts[i].how != how
    modifies g, g.derivations, g.derivations.slots, g.symbols, g.symbols.slots
    ensures g.Valid() && Derived(g, old(g.facts), id, how)
    ensures id != 0 ==>
              && id == |old(g.facts)|
              && Building(g.facts[id], WithPiece(old(g.facts)[system].term,
                                                 Piece(face, old(g.facts)[t].term, old(g.facts)[e].term)),
                          g.language.join(old(g.facts)[t].typ, old(g.facts)[system].typ), g.facts[id].pending)
              && OwedOn(PieceFaces(old(g.facts)[system].term.pieces), face, g.facts[id].pending)
              && (face != [] ==>
                    PieceFitting(g.language, old(g.facts)[system].term.base, face[0], old(g.facts)[t], old(g.facts)[e])
                    && PieceContext(g.entries, g.lists, old(g.facts)[system], old(g.facts)[t], old(g.facts)[e], face[0],
                                 FaceNames(face), g.facts[id].context))
  {
    var s, l := g.facts[system], g.language;
    var p := Piece(face, g.facts[t].term, g.facts[e].term);
    id := 0;
    if face != [] && !PieceFitting(l, s.term.base, face[0], g.facts[t], g.facts[e]) {
      Refuse(g);
      return;
    }
    var ok, owed := Overlapping(PieceFaces(s.term.pieces), face);
    if !ok {
      Refuse(g);
      return;
    }
    var context;
    if face != [] {
      ok, context := TubeContext(g, system, face[0], t, e, FaceNames(face));
    } else {
      assert SetOk(g.entries, g.lists, s.context) && SetOk(g.entries, g.lists, g.facts[t].context)
             && SetOk(g.entries, g.lists, g.facts[e].context);
      ok, context := Merge3(g, s.context, g.facts[t].context, g.facts[e].context);
    }
    if !ok { return; }
    id := PublishPiece(g, system, p, l.join(g.facts[t].typ, s.typ), e, how, context, owed);
  }

  method PublishPiece(g: Graph, system: nat, p: Piece, typ: Term, ghost e: nat, how: Derivation, context: nat,
                      owed: set<nat>)
    returns (id: nat)
    requires g.Valid() && Earlier(g.facts, system, System) && g.facts[system].pending == {}
    requires g.facts[system].term.Glue?
    requires Earlier(g.facts, e, Typing) && p.equivalence == g.facts[e].term && Single(p.face)
    requires SetOk(g.entries, g.lists, context)
    requires p.face != [] ==>
               && Names(p.face[0]) !! g.language.dims(p.typ) + g.language.dims(p.equivalence)
               && g.language.same(g.facts[e].typ,
                                  g.language.equivalences(p.typ,
                                                          g.language.restrict(g.facts[system].term.base, p.face[0])))
    requires OwedOn(PieceFaces(g.facts[system].term.pieces), p.face, owed)
    requires forall i :: 0 < i < |g.facts| ==> g.facts[i].how != how
    modifies g`facts, g`failed, g.derivations, g.derivations.slots
    ensures g.Valid() && Derived(g, old(g.facts), id, how)
    ensures id != 0 ==>
              && id == |old(g.facts)| && Building(g.facts[id], WithPiece(old(g.facts)[system].term, p), typ, owed)
              && g.facts[id].context == context
  {
    var s := g.facts[system];
    var f := Fact(System, WithPiece(s.term, p), Handle(0), typ, context, how, owed);
    PieceFact(g.language, g.facts, f, system, e, p);
    id := g.Publish(f);
  }

  /** The equalities are of the types and of the equivalences of the last piece and the one
      at the position, on the joined clause of their faces. */
  predicate GluePaid(l: Language, pieces: seq<Piece>, position: nat, t: Fact, e: Fact) {
    && position + 1 < |pieces| && |pieces[position].face| == |pieces[|pieces| - 1].face| == 1
    && var overlap := LastOverlap(PieceFaces(pieces), position);
       && Equates(l, t, pieces[|pieces| - 1].typ, pieces[position].typ, overlap)
       && Equates(l, e, pieces[|pieces| - 1].equivalence, pieces[position].equivalence, overlap)
  }

  /** The last piece and the piece at a position agree on the overlap, in their types and
      in their equivalences. */
  method ShowGlueOverlap(g: Graph, system: nat, position: nat, t: nat, e: nat) returns (id: nat)
    requires g.Valid()
    modifies g, g.derivations, g.derivations.slots
    ensures g.Valid() && Derived(g, old(g.facts), id, Derivation(GlueOverlapRule, [system, t, e], 0, [], position, []))
    ensures id != 0 && id == |old(g.facts)| ==>
              && Earlier(old(g.facts), system, System) && old(g.facts)[system].term.Glue?
              && Earlier(old(g.facts), t, Equality) && Earlier(old(g.facts), e, Equality)
              && var s := old(g.facts)[system];
                 && position in s.pending
                 && GluePaid(g.language, s.term.pieces, position, old(g.facts)[t], old(g.facts)[e])
                 && Building(g.facts[id], s.term, s.typ, s.pending - {position})
                 && var overlap := LastOverlap(PieceFaces(s.term.pieces), position);
                    ContextOf(g, id) == ContextOf(g, system) + StaysOn(g.entries, ContextOf(g, t), overlap)
                                        + StaysOn(g.entries, ContextOf(g, e), overlap)
  {
    var how := Derivation(GlueOverlapRule, [system, t, e], 0, [], position, []);
    var new', found := g.Begin(how);
    if !new' { return found; }
    id := 0;
    var ok := Premise(g, system, System);
    if !ok { return; }
    ok := Premise(g, t, Equality);
    if !ok { return; }
    ok := Premise(g, e, Equality);
    if !ok { return; }
    if !g.facts[system].term.Glue? || position >= OVERLAPS || position !in g.facts[system].pending {
      Refuse(g);
      return;
    }
    PendingMeets(g, system, position);
    id := PayGlueOverlap(g, system, position, t, e, how);
  }

  method PayGlueOverlap(g: Graph, system: nat, position: nat, t: nat, e: nat, how: Derivation) returns (id: nat)
    requires g.Valid() && Earlier(g.facts, system, System) && g.facts[system].term.Glue?
    requires Earlier(g.facts, t, Equality) && Earlier(g.facts, e, Equality)
    requires position in g.facts[system].pending && OwedPiece(g.facts[system].term.pieces, position)
    requires position < OVERLAPS
    requires forall i :: 0 < i < |g.facts| ==> g.facts[i].how != how
    modifies g, g.derivations, g.derivations.slots
    ensures g.Valid() && Derived(g, old(g.facts), id, how)
    ensures id != 0 ==>
              && id == |old(g.facts)|
              && GluePaid(g.language, old(g.facts)[system].term.pieces, position, old(g.facts)[t], old(g.facts)[e])
              && Building(g.facts[id], old(g.facts)[system].term, old(g.facts)[system].typ,
                          old(g.facts)[system].pending - {position})
              && var overlap := LastOverlap(PieceFaces(old(g.facts)[system].term.pieces), position);
                 ContextOf(g, id) == ContextOf(g, system) + StaysOn(g.entries, ContextOf(g, t), overlap)
                                     + StaysOn(g.entries, ContextOf(g, e), overlap)
  {
    var s, pieces := g.facts[system], g.facts[system].term.pieces;
    id := 0;
    if !GluePaid(g.language, pieces, position, g.facts[t], g.facts[e]) {
      Refuse(g);
      return;
    }
    var overlap := LastOverlap(PieceFaces(pieces), position);
    assert SetOk(g.entries, g.lists, s.context);
    var ok, context := WithClauses(g, s.context, t, e, overlap);
    if !ok { return; }
    id := PublishGluePaid(g, system, position, t, e, how, context);
  }

  method PublishGluePaid(g: Graph, system: nat, position: nat, ghost t: nat, ghost e: nat, how: Derivation,
                         context: nat)
    returns (id: nat)
    requires g.Valid() && Earlier(g.facts, system, System) && g.facts[system].term.Glue?
    requires Earlier(g.facts, t, Equality) && Earlier(g.facts, e, Equality)
    requires position in g.facts[system].pending && position < OVERLAPS
    requires GluePaid(g.language, g.facts[system].term.pieces, position, g.facts[t], g.facts[e])
    requires SetOk(g.entries, g.lists, context) && forall i :: 0 < i < |g.facts| ==> g.facts[i].how != how
    modifies g`facts, g`failed, g.derivations, g.derivations.slots
    ensures g.Valid() && Derived(g, old(g.facts), id, how)
    ensures id != 0 ==>
              && id == |old(g.facts)| && g.facts[id].context == context
              && Building(g.facts[id], old(g.facts)[system].term, old(g.facts)[system].typ,
                          old(g.facts)[system].pending - {position})
  {
    var s := g.facts[system];
    var f := Fact(System, s.term, Handle(0), s.typ, context, how, s.pending - {position});
    GlueOverlapFact(g.language, g.facts, f, system, position, t, e);
    id := g.Publish(f);
  }

  method CloseGlue(g: Graph, system: nat) returns (id: nat)
    requires g.Valid()
    modifies g, g.derivations, g.derivations.slots
    ensures g.Valid() && Derived(g, old(g.facts), id, Derivation(GlueRule, [system], 0, [], 0, []))
    ensures id != 0 && id == |old(g.facts)| ==>
              && Earlier(old(g.facts), system, System) && old(g.facts)[system].term.Glue?
              && var s := old(g.facts)[system];
                 s.pending == {} && Closed(g.facts[id], s.term, s.typ) && g.facts[id].context == s.context
  {
    var how := Derivation(GlueRule, [system], 0, [], 0, []);
    var new', found := g.Begin(how);
    if !new' { return found; }
    id := 0;
    var ok := OpenSystem(g, system);
    if !ok { return; }
    if !g.facts[system].term.Glue? {
      Refuse(g);
      return;
    }
    id := Close(g, system, g.facts[system].term, g.facts[system].context, how, []);
  }

  method StartGlueTerm(g: Graph, typ: nat, base: nat) returns (id: nat)
    requires g.Valid()
    modifies g, g.derivations, g.derivations.slots
    ensures g.Valid() && Derived(g, old(g.facts), id, Derivation(GlueTermBaseRule, [typ, base], 0, [], 0, []))
    ensures id != 0 && id == |old(g.facts)| ==>
              && Earlier(old(g.facts), typ, Typing) && Earlier(old(g.facts), base, Typing)
              && var t, a := old(g.facts)[typ], old(g.facts)[base];
                 && t.term.Glue? && g.language.same(a.typ, t.term.base)
                 && Building(g.facts[id], GlueTerm(t.term, a.term, []), t.term, {})
                 && ContextOf(g, id) == ContextOf(g, typ) + ContextOf(g, base)
  {
    var how := Derivation(GlueTermBaseRule, [typ, base], 0, [], 0, []);
    var new', found := g.Begin(how);
    if !new' { return found; }
    id := 0;
    var ok := Premise(g, typ, Typing);
    if !ok { return; }
    ok := Premise(g, base, Typing);
    if !ok { return; }
    var t, a := g.facts[typ], g.facts[base];
    if !g.language.universe(t.typ) || !t.term.Glue? || !g.language.same(a.typ, t.term.base) {
      Refuse(g);
      return;
    }
    var term := GlueTerm(t.term, a.term, []);
    forall context: nat ensures FactsOk(g.language, g.facts + [Started(term, t.term, context, how)]) {
      StartedFact(g.language, g.facts, Started(term, t.term, context, how), typ, base);
    }
    id := PublishStarted(g, typ, base, term, t.term, how);
  }

  /** The value for the next piece of the type, in order. */
  method AddValue(g: Graph, system: nat, v: nat, e: nat) returns (id: nat)
    requires g.Valid()
    modifies g, g.derivations, g.derivations.slots, g.symbols, g.symbols.slots
    ensures g.Valid() && Derived(g, old(g.facts), id, Derivation(ValueRule, [system, v, e], 0, [], 0, []))
    ensures id != 0 && id == |old(g.facts)| ==>
              && Earlier(old(g.facts), system, System) && Earlier(old(g.facts), v, Typing)
              && old(g.facts)[system].pending == {} && old(g.facts)[system].term.GlueTerm?
              && var s := old(g.facts)[system];
                 && s.term.glue.Glue? && |s.term.tubes| < |s.term.glue.pieces|
                 && var p := s.term.glue.pieces[|s.term.tubes|];
                    && Building(g.facts[id], WithTube(s.term, Tube(p.face, old(g.facts)[v].term)), s.typ,
                                g.facts[id].pending)
                    && OwedOn(TubeFaces(s.term.tubes), p.face, g.facts[id].pending)
                    && if p.face == [] then
                         e == 0 && ContextOf(g, id) == ContextOf(g, system) + ContextOf(g, v)
                       else
                         && Earlier(old(g.facts), e, Equality)
                         && ValueFitting(g.language, p, s.term.base, old(g.facts)[v], old(g.facts)[e])
                         && PieceContext(g.entries, g.lists, s, old(g.facts)[v], old(g.facts)[e], p.face[0],
                                         FaceNames(p.face), g.facts[id].context)
  {
    var how := Derivation(ValueRule, [system, v, e], 0, [], 0, []);
    var new', found := g.Begin(how);
    if !new' { return found; }
    id := 0;
    var ok := OpenSystem(g, system);
    if !ok { return; }
    ok := Premise(g, v, Typing);
    if !ok { return; }
    var t := g.facts[system].term;
    assert FactOk(g.language, g.facts, system);
    if !t.GlueTerm? || |t.tubes| >= |t.glue.pieces| {
      Refuse(g);
      return;
    }
    if t.glue.pieces[|t.tubes|].face != [] {
      ok := Premise(g, e, Equality);
      if !ok { return; }
    } else if e != 0 {
      Refuse(g);
      return;
    }
    id := AddValueOn(g, system, v, e, how);
  }

  method ValueContext(g: Graph, system: nat, face: Face, v: nat, e: nat) returns (ok: bool, context: nat)
    requires g.Valid() && !g.failed && 0 < system < |g.facts| && 0 < v < |g.facts| && (face != [] ==> 0 < e < |g.facts|)
    modifies g, g.symbols, g.symbols.slots
    ensures g.Valid() && g.facts == old(g.facts)
    ensures ok ==> !g.failed && SetOk(g.entries, g.lists, context)
    ensures ok ==>
              if face == [] then Members(g.lists[context]) == ContextOf(g, system) + ContextOf(g, v)
              else PieceContext(g.entries, g.lists, g.facts[system], g.facts[v], g.facts[e], face[0], FaceNames(face),
                                context)
    ensures !ok ==> g.failed
  {
    if face != [] {
      ok, context := TubeContext(g, system, face[0], v, e, FaceNames(face));
    } else {
      ok, context := MergePremises(g, system, v);
    }
  }

  method AddValueOn(g: Graph, system: nat, v: nat, e: nat, how: Derivation) returns (id: nat)
    requires g.Valid() && !g.failed && Earlier(g.facts, system, System) && g.facts[system].pending == {}
    requires g.facts[system].term.GlueTerm?
    requires g.facts[system].term.glue.Glue? && |g.facts[system].term.tubes| < |g.facts[system].term.glue.pieces|
    requires Earlier(g.facts, v, Typing)
    requires var face := g.facts[system].term.glue.pieces[|g.facts[system].term.tubes|].face;
             if face == [] then e == 0 else Earlier(g.facts, e, Equality)
    requires how == Derivation(ValueRule, [system, v, e], 0, [], 0, [])
    requires forall i :: 0 < i < |g.facts| ==> g.facts[i].how != how
    modifies g, g.derivations, g.derivations.slots, g.symbols, g.symbols.slots
    ensures g.Valid() && Derived(g, old(g.facts), id, how)
    ensures id != 0 ==>
              var s, was := old(g.facts)[system].term, old(g.facts)[system];
              var p := s.glue.pieces[|s.tubes|];
              && id == |old(g.facts)|
              && Building(g.facts[id], WithTube(s, Tube(p.face, old(g.facts)[v].term)), was.typ, g.facts[id].pending)
              && OwedOn(TubeFaces(s.tubes), p.face, g.facts[id].pending)
              && if p.face == [] then ContextOf(g, id) == ContextOf(g, system) + ContextOf(g, v)
                 else
                   && ValueFitting(g.language, p, s.base, old(g.facts)[v], old(g.facts)[e])
                   && PieceContext(g.entries, g.lists, was, old(g.facts)[v], old(g.facts)[e], p.face[0],
                                   FaceNames(p.face), g.facts[id].context)
  {
    var s, l := g.facts[system], g.language;
    var p := s.term.glue.pieces[|s.term.tubes|];
    id := 0;
    if p.face != [] && !ValueFitting(l, p, s.term.base, g.facts[v], g.facts[e]) {
      Refuse(g);
      return;
    }
    var ok, owed := Overlapping(TubeFaces(s.term.tubes), p.face);
    if !ok {
      Refuse(g);
      return;
    }
    var context;
    ok, context := ValueContext(g, system, p.face, v, e);
    if !ok { return; }
    id := PublishValue(g, system, v, e, how, context, owed);
  }

  method PublishValue(g: Graph, system: nat, v: nat, ghost e: nat, how: Derivation, context: nat, owed: set<nat>)
    returns (id: nat)
    requires g.Valid() && Earlier(g.facts, system, System) && g.facts[system].pending == {}
    requires g.facts[system].term.GlueTerm?
    requires g.facts[system].term.glue.Glue? && |g.facts[system].term.tubes| < |g.facts[system].term.glue.pieces|
    requires Earlier(g.facts, v, Typing) && SetOk(g.entries, g.lists, context)
    requires var s := g.facts[system].term;
             var p := s.glue.pieces[|s.tubes|];
             && (if p.face == [] then e == 0
                 else Earlier(g.facts, e, Equality) && ValueFitting(g.language, p, s.base, g.facts[v], g.facts[e]))
             && OwedOn(TubeFaces(s.tubes), p.face, owed) && forall i :: i in owed ==> i < OVERLAPS
    requires how == Derivation(ValueRule, [system, v, e], 0, [], 0, [])
    requires forall i :: 0 < i < |g.facts| ==> g.facts[i].how != how
    modifies g`facts, g`failed, g.derivations, g.derivations.slots
    ensures g.Valid() && Derived(g, old(g.facts), id, how)
    ensures id != 0 ==>
              var s := old(g.facts)[system].term;
              && id == |old(g.facts)| && g.facts[id].context == context
              && Building(g.facts[id], WithTube(s, Tube(s.glue.pieces[|s.tubes|].face, old(g.facts)[v].term)),
                          old(g.facts)[system].typ, owed)
  {
    var s := g.facts[system];
    var t := Tube(s.term.glue.pieces[|s.term.tubes|].face, g.facts[v].term);
    var f := Fact(System, WithTube(s.term, t), Handle(0), s.typ, context, how, owed);
    ValueFact(g.language, g.facts, f, system, v, e, t);
    id := g.Publish(f);
  }

  method CloseGlueTerm(g: Graph, system: nat) returns (id: nat)
    requires g.Valid()
    modifies g, g.derivations, g.derivations.slots
    ensures g.Valid() && Derived(g, old(g.facts), id, Derivation(GlueTermRule, [system], 0, [], 0, []))
    ensures id != 0 && id == |old(g.facts)| ==>
              && Earlier(old(g.facts), system, System) && old(g.facts)[system].term.GlueTerm?
              && var s := old(g.facts)[system];
                 && s.pending == {} && s.term.glue.Glue? && |s.term.tubes| == |s.term.glue.pieces|
                 && Closed(g.facts[id], s.term, s.typ) && g.facts[id].context == s.context
  {
    var how := Derivation(GlueTermRule, [system], 0, [], 0, []);
    var new', found := g.Begin(how);
    if !new' { return found; }
    id := 0;
    var ok := OpenSystem(g, system);
    if !ok { return; }
    var t := g.facts[system].term;
    assert FactOk(g.language, g.facts, system);
    if !t.GlueTerm? || |t.tubes| != |t.glue.pieces| {
      Refuse(g);
      return;
    }
    id := Close(g, system, t, g.facts[system].context, how, []);
  }
}
