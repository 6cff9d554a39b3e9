/** What each kind of node binds, and in which of its children, with the kinds written out:
    the free names of a node, and when two nodes are equal up to their bound names. A
    composition's direction binds its family and its tubes' bodies, never its tubes'
    faces; a homogeneous composition does not bind it in its type. */
module Binding {
  import opened Lattice
  import opened Nameless
  import opened Formulas
  import opened FreeNames
  import opened SubstitutionLaws
  import opened TermStore
  import opened Views

  // ---- Free names --------------------------------------------------------------------------

  /** A tube list, from its faces and bodies. */
  ghost function TubeList(tubes: seq<(Tag, Form)>): Form {
    if tubes == [] then Absent else Node(TUBE, 0, tubes[0].0, tubes[0].1, TubeList(tubes[1..]), Absent)
  }

  ghost predicate TubesStand(tubes: seq<(Tag, Form)>) {
    forall i :: 0 <= i < |tubes| ==>
      TagClosed(tubes[i].0, 0, 0) && Standalone(tubes[i].1)
      && (tubes[i].0.Formula? ==> Normal(tubes[i].0.sort, tubes[i].0.clauses))
  }

  ghost predicate InFaces(tubes: seq<(Tag, Form)>, d: nat) {
    exists i :: 0 <= i < |tubes| && d in TagDims(tubes[i].0)
  }

  ghost predicate InBodies(tubes: seq<(Tag, Form)>, d: nat) {
    exists i :: 0 <= i < |tubes| && d in FreeDims(tubes[i].1)
  }

  lemma {:induction false} TubeListStands(tubes: seq<(Tag, Form)>)
    requires TubesStand(tubes)
    ensures Standalone(TubeList(tubes)) && PlainList(TubeList(tubes))
  {
    if tubes != [] {
      TubeListStands(tubes[1..]);
      NodeStandalone(TUBE, 0, tubes[0].0, tubes[0].1, TubeList(tubes[1..]), Absent);
    }
  }

  lemma {:induction false} TubeListDims(tubes: seq<(Tag, Form)>, e: nat, d: nat)
    ensures d in ListDims(TubeList(tubes), e) <==> InFaces(tubes, d) || (d != e && InBodies(tubes, d))
  {
    if tubes != [] {
      TubeListDims(tubes[1..], e, d);
      var rest := tubes[1..];
      if i :| 0 <= i < |rest| && d in TagDims(rest[i].0) { assert tubes[i + 1] == rest[i]; }
      if i :| 0 <= i < |rest| && d in FreeDims(rest[i].1) { assert tubes[i + 1] == rest[i]; }
      if i :| 0 < i < |tubes| && d in TagDims(tubes[i].0) { assert tubes[i] == rest[i - 1]; }
      if i :| 0 < i < |tubes| && d in FreeDims(tubes[i].1) { assert tubes[i] == rest[i - 1]; }
    }
  }

  lemma CompositionDims(e: nat, tag: Tag, a: Form, tubes: seq<(Tag, Form)>, c: Form, d: nat)
    requires Standalone(a) && Standalone(c) && TubesStand(tubes)
    ensures d in FreeDims(Node(COMP, e, tag, a, TubeList(tubes), c)) <==>
              || (d != e && d in FreeDims(a)) || InFaces(tubes, d) || (d != e && InBodies(tubes, d)) || d in FreeDims(c)
  {
    TubeListStands(tubes);
    TubeListDims(tubes, e, d);
    NodeDims(COMP, e, tag, a, TubeList(tubes), c);
  }

  lemma HomogeneousDims(e: nat, tag: Tag, a: Form, tubes: seq<(Tag, Form)>, c: Form, d: nat)
    requires Standalone(a) && Standalone(c) && TubesStand(tubes)
    ensures d in FreeDims(Node(HCOMP, e, tag, a, TubeList(tubes), c)) <==>
              || d in FreeDims(a) || InFaces(tubes, d) || (d != e && InBodies(tubes, d)) || d in FreeDims(c)
  {
    TubeListStands(tubes);
    TubeListDims(tubes, e, d);
    NodeDims(HCOMP, e, tag, a, TubeList(tubes), c);
  }

  lemma PathDims(kind: Kind, e: nat, tag: Tag, a: Form, b: Form, c: Form)
    requires kind in {PATH, TRANS} && Standalone(a) && Standalone(b) && Standalone(c)
    ensures FreeDims(Node(kind, e, tag, a, b, c)) == (FreeDims(a) - {e}) + FreeDims(b) + FreeDims(c)
  {
    NodeDims(kind, e, tag, a, b, c);
  }

  lemma AbstractionDims(e: nat, tag: Tag, a: Form, b: Form, c: Form)
    requires Standalone(a) && Standalone(b) && Standalone(c)
    ensures FreeDims(Node(PLAM, e, tag, a, b, c)) == (FreeDims(a) - {e}) + (FreeDims(b) - {e}) + FreeDims(c)
  {
    NodeDims(PLAM, e, tag, a, b, c);
  }

  lemma OtherDims(kind: Kind, name: nat, tag: Tag, a: Form, b: Form, c: Form)
    requires kind in {PI, LAM, APP, PAPP, TUBE} && Standalone(a) && Standalone(b) && Standalone(c)
    ensures FreeDims(Node(kind, name, tag, a, b, c))
            == (if kind in {PI, LAM} then {} else TagDims(tag)) + FreeDims(a) + FreeDims(b) + FreeDims(c)
  {
    NodeDims(kind, name, tag, a, b, c);
  }

  lemma LambdaTerms(kind: Kind, x: nat, tag: Tag, a: Form, b: Form, c: Form)
    requires kind in {PI, LAM}
    ensures FreeTerms(Node(kind, x, tag, a, b, c)) == FreeTerms(a) + (FreeTerms(b) - {x}) + FreeTerms(c)
  {
    NodeTerms(kind, x, tag, a, b, c);
  }

  lemma OtherTerms(kind: Kind, name: nat, tag: Tag, a: Form, b: Form, c: Form)
    requires kind in {APP, PATH, PLAM, PAPP, COMP, HCOMP, TRANS, TUBE}
    ensures FreeTerms(Node(kind, name, tag, a, b, c)) == FreeTerms(a) + FreeTerms(b) + FreeTerms(c)
  {
    NodeTerms(kind, name, tag, a, b, c);
  }

  // ---- Substituting for the name that a node binds ------------------------------------------------

  lemma LambdaShadows(kind: Kind, x: nat, tag: Tag, a: Form, b: Form, c: Form, v: Form)
    requires kind in {PI, LAM} && Canonic(v)
    ensures SubstTerm(Node(kind, x, tag, a, b, c), x, v)
            == Node(kind, x, tag, SubstTerm(a, x, v), b, SubstTerm(c, x, v))
  {
    SubstTermNode(kind, x, tag, a, b, c, x, v);
  }

  lemma PathShadows(kind: Kind, e: nat, tag: Tag, a: Form, b: Form, c: Form, s: set<Clause<Atom>>)
    requires kind in {PATH, TRANS} && Canonic(a) && Canonic(b)
    ensures SubstDim(Node(kind, e, tag, a, b, c), e, s) == Node(kind, e, tag, a, SubstDim(b, e, s), SubstDim(c, e, s))
  {
    SubstDimNode(kind, e, tag, a, b, c, e, s);
  }

  lemma AbstractionShadows(e: nat, tag: Tag, a: Form, b: Form, c: Form, s: set<Clause<Atom>>)
    requires Canonic(a) && Canonic(b)
    ensures SubstDim(Node(PLAM, e, tag, a, b, c), e, s) == Node(PLAM, e, tag, a, b, SubstDim(c, e, s))
  {
    SubstDimNode(PLAM, e, tag, a, b, c, e, s);
  }

  /** The direction's own name is replaced in the tubes' faces, not in their bodies, and
      in the type of a homogeneous composition only. */
  lemma CompositionShadows(e: nat, tag: Tag, a: Form, b: Form, c: Form, s: set<Clause<Atom>>)
    requires Canonic(a) && Canonic(b)
    ensures SubstDim(Node(COMP, e, tag, a, b, c), e, s)
            == Node(COMP, e, tag, a, SubstList(b, e, s, false, true), SubstDim(c, e, s))
    ensures SubstDim(Node(HCOMP, e, tag, a, b, c), e, s)
            == Node(HCOMP, e, tag, SubstDim(a, e, s), SubstList(b, e, s, false, true), SubstDim(c, e, s))
  {
    SubstDimNode(COMP, e, tag, a, b, c, e, s);
    SubstDimNode(HCOMP, e, tag, a, b, c, e, s);
  }

  // ---- Renaming a name keeps a whole term whole ---------------------------------------------------

  lemma {:induction false} SubstVariableClosed(m: Form, x: nat, z: nat, terms: nat, dims: nat)
    ensures VariablesPlain(m) ==> VariablesPlain(SubstTerm(m, x, Variable(Free(z))))
    ensures Closed(m, terms, dims) ==> Closed(SubstTerm(m, x, Variable(Free(z))), terms, dims)
    ensures ListClosed(m, terms, dims) ==> ListClosed(SubstTerm(m, x, Variable(Free(z))), terms, dims)
  {
    if m.Form? && m.kind != VAR {
      SubstVariableClosed(m.a, x, z, terms, dims);
      SubstVariableClosed(m.a, x, z, terms, dims + 1);
      SubstVariableClosed(m.b, x, z, terms, dims);
      SubstVariableClosed(m.b, x, z, terms + 1, dims);
      SubstVariableClosed(m.b, x, z, terms, dims + 1);
      SubstVariableClosed(m.c, x, z, terms, dims);
    }
  }

  lemma RenamedStands(m: Form, x: nat, z: nat)
    requires Standalone(m)
    ensures Standalone(SubstTerm(m, x, Variable(Free(z))))
  {
    SubstVariableClosed(m, x, z, 0, 0);
    SubstTermCanonic(m, x, Variable(Free(z)));
  }

  lemma SubstDimensionTag(tag: Tag, e: nat, f: nat, terms: nat, dims: nat)
    requires TagClosed(tag, terms, dims)
    ensures TagClosed(SubstTag(tag, e, Dimension(f)), terms, dims)
  {
    if tag.Formula? {
      var value := Dimension(f);
      var one := if tag.sort == Interval then value else AtOne(value);
      var zero := if tag.sort == Interval then Dual(Interval, value) else AtZero(value);
      forall i: nat | Mentions(SubstTag(tag, e, value).clauses, Index(i)) ensures i < dims {
        ReplacedMentions(tag.sort, tag.clauses, Free(e), one, zero, Index(i));
        DimensionEnds(f);
      }
    }
  }

  /** Neither `f` nor its reversal, nor the faces `f=1` and `f=0`, mention an index. */
  lemma DimensionEnds(f: nat)
    ensures var s := Dimension(f);
            forall i: nat :: !Mentions(s, Index(i)) && !Mentions(Dual(Interval, s), Index(i))
                             && !Mentions(AtOne(s), Index(i)) && !Mentions(AtZero(s), Index(i))
  {
    var c: Clause<Atom> := Clause({}, {Free(f)});
    var s, r := Dimension(f), {c};
    DualNormal(Interval, s);
    forall v: Point<Atom> ensures Holds(Dual(Interval, s), v) <==> Holds(r, v) {
      DualHolds(Interval, s, v);
      DimensionHolds(f, Opposite(v));
      assert c in r;
    }
    Canonical(Interval, Dual(Interval, s), r);
    ZeroIsReversedOne(s);
  }

  lemma {:induction false} SubstDimensionClosed(m: Form, e: nat, f: nat, terms: nat, dims: nat)
    ensures VariablesPlain(m) ==> VariablesPlain(SubstDim(m, e, Dimension(f)))
    ensures Closed(m, terms, dims) ==> Closed(SubstDim(m, e, Dimension(f)), terms, dims)
    ensures ListClosed(m, terms, dims) ==> ListClosed(SubstDim(m, e, Dimension(f)), terms, dims)
  {
    if m.Form? {
      if TagClosed(m.tag, terms, dims) { SubstDimensionTag(m.tag, e, f, terms, dims); }
      SubstDimensionClosed(m.a, e, f, terms, dims);
      SubstDimensionClosed(m.a, e, f, terms, dims + 1);
      SubstDimensionClosed(m.b, e, f, terms, dims);
      SubstDimensionClosed(m.b, e, f, terms + 1, dims);
      SubstDimensionClosed(m.b, e, f, terms, dims + 1);
      SubstDimensionClosed(m.c, e, f, terms, dims);
    }
  }

  lemma RedirectedStands(m: Form, e: nat, f: nat)
    requires Standalone(m)
    ensures Standalone(SubstDim(m, e, Dimension(f)))
  {
    SubstDimensionClosed(m, e, f, 0, 0);
    SubstDimCanonic(m, e, Dimension(f), true, true);
  }

  lemma {:induction false} RedirectedTubes(m: Form, e: nat, f: nat)
    requires PlainList(m) && Standalone(m)
    ensures PlainList(SubstList(m, e, Dimension(f), true, false))
    ensures Standalone(SubstList(m, e, Dimension(f), true, false))
  {
    SubstDimCanonic(m, e, Dimension(f), true, false);
    if m.Form? {
      SubstDimensionClosed(m.a, e, f, 0, 0);
      RedirectedTubes(m.b, e, f);
    }
  }

  // ---- Equality up to bound names, kind by kind ---------------------------------------------------

  /** Bound by the same name on both sides, terms are alike when their bodies are. */
  lemma AlikeUnderTerm(m: Form, n: Form, z: nat)
    requires Standalone(m) && Standalone(n)
    ensures Alike(CloseTerm(m, 0, z), CloseTerm(n, 0, z)) <==> Alike(m, n)
  {
    var p := Pair(z, z);
    CloseTermDims(m, 0, z);
    CloseTermDims(n, 0, z);
    ClosePlain(m, 0, z);
    ClosePlain(n, 0, z);
    ViewsAlike(CloseTerm(m, 0, z), CloseTerm(n, 0, z));
    SameUnderTerm(m, n, [], p, []);
    assert [] + [p] == [p];
    Dropped(m, n, [p], []);
    ViewsAlike(m, n);
  }

  lemma AlikeUnderDim(m: Form, n: Form, f: nat)
    requires Standalone(m) && Standalone(n)
    ensures Alike(CloseDim(m, 0, f), CloseDim(n, 0, f)) <==> Alike(m, n)
  {
    var p := Pair(f, f);
    CloseDimCanonic(m, 0, f);
    CloseDimCanonic(n, 0, f);
    ClosePlain(m, 0, f);
    ClosePlain(n, 0, f);
    ViewsAlike(CloseDim(m, 0, f), CloseDim(n, 0, f));
    SameUnderDim(m, n, [], [], p);
    assert [] + [p] == [p];
    Dropped(m, n, [], [p]);
    ViewsAlike(m, n);
  }

  lemma {:induction false} AlikeUnderTubes(m: Form, n: Form, f: nat)
    requires Standalone(m) && Standalone(n) && PlainList(m) && PlainList(n)
    ensures Alike(CloseTubes(m, f), CloseTubes(n, f)) <==> Alike(m, n)
  {
    if m.Form? && n.Form? {
      AlikeUnderDim(m.a, n.a, f);
      AlikeUnderTubes(m.b, n.b, f);
    }
  }

  /** Functions and their types are alike when the domains are, and the bodies with the two
      bound names replaced by one that neither has. */
  lemma LambdasAlike(kind: Kind, x: nat, y: nat, z: nat, s: Tag, t: Tag, a: Form, b: Form, c: Form, a': Form, b': Form,
                     c': Form)
    requires kind in {PI, LAM} && Standalone(b) && Standalone(b')
    requires z !in FreeTerms(b) && z !in FreeTerms(b')
    ensures Alike(Node(kind, x, s, a, b, c), Node(kind, y, t, a', b', c'))
            <==> && Alike(a, a') && Alike(c, c')
                 && Alike(SubstTerm(b, x, Variable(Free(z))), SubstTerm(b', y, Variable(Free(z))))
  {
    RenamedStands(b, x, z);
    RenamedStands(b', y, z);
    RenameTerm(b, 0, x, z);
    RenameTerm(b', 0, y, z);
    AlikeUnderTerm(SubstTerm(b, x, Variable(Free(z))), SubstTerm(b', y, Variable(Free(z))), z);
  }

  /** A child bound by a dimension on each side, the two replaced by one that neither has. */
  lemma RedirectedAlike(m: Form, n: Form, e: nat, e': nat, f: nat)
    requires Standalone(m) && Standalone(n) && !DimFree(m, f) && !DimFree(n, f)
    ensures Alike(CloseDim(m, 0, e), CloseDim(n, 0, e'))
            <==> Alike(SubstDim(m, e, Dimension(f)), SubstDim(n, e', Dimension(f)))
  {
    RedirectedStands(m, e, f);
    RedirectedStands(n, e', f);
    RenameDim(m, 0, e, f);
    RenameDim(n, 0, e', f);
    AlikeUnderDim(SubstDim(m, e, Dimension(f)), SubstDim(n, e', Dimension(f)), f);
  }

  lemma RedirectedTubesAlike(m: Form, n: Form, e: nat, e': nat, f: nat)
    requires Standalone(m) && Standalone(n) && PlainList(m) && PlainList(n) && !DimFree(m, f) && !DimFree(n, f)
    ensures Alike(CloseTubes(m, e), CloseTubes(n, e'))
            <==> Alike(SubstList(m, e, Dimension(f), true, false), SubstList(n, e', Dimension(f), true, false))
  {
    RedirectedTubes(m, e, f);
    RedirectedTubes(n, e', f);
    RenameDim(m, 0, e, f);
    RenameDim(n, 0, e', f);
    AlikeUnderTubes(SubstList(m, e, Dimension(f), true, false), SubstList(n, e', Dimension(f), true, false), f);
  }

  lemma PathsAlike(kind: Kind, e: nat, e': nat, f: nat, s: Tag, t: Tag, a: Form, b: Form, c: Form, a': Form, b': Form,
                   c': Form)
    requires kind in {PATH, TRANS} && Standalone(a) && Standalone(a') && !DimFree(a, f) && !DimFree(a', f)
    ensures Alike(Node(kind, e, s, a, b, c), Node(kind, e', t, a', b', c'))
            <==> && Alike(SubstDim(a, e, Dimension(f)), SubstDim(a', e', Dimension(f)))
                 && Alike(b, b') && Alike(c, c')
  {
    RedirectedAlike(a, a', e, e', f);
  }

  lemma AbstractionsAlike(e: nat, e': nat, f: nat, s: Tag, t: Tag, a: Form, b: Form, c: Form, a': Form, b': Form,
                          c': Form)
    requires Standalone(a) && Standalone(a') && Standalone(b) && Standalone(b')
    requires !DimFree(a, f) && !DimFree(a', f) && !DimFree(b, f) && !DimFree(b', f)
    ensures Alike(Node(PLAM, e, s, a, b, c), Node(PLAM, e', t, a', b', c'))
            <==> && Alike(SubstDim(a, e, Dimension(f)), SubstDim(a', e', Dimension(f)))
                 && Alike(SubstDim(b, e, Dimension(f)), SubstDim(b', e', Dimension(f))) && Alike(c, c')
  {
    RedirectedAlike(a, a', e, e', f);
    RedirectedAlike(b, b', e, e', f);
  }

  /** The bodies of the tubes with the two directions replaced, and their faces as they are. */
  lemma CompositionsAlike(e: nat, e': nat, f: nat, s: Tag, t: Tag, a: Form, b: Form, c: Form, a': Form, b': Form,
                          c': Form)
    requires Standalone(a) && Standalone(a') && Standalone(b) && Standalone(b') && PlainList(b) && PlainList(b')
    requires !DimFree(a, f) && !DimFree(a', f) && !DimFree(b, f) && !DimFree(b', f)
    ensures Alike(Node(COMP, e, s, a, b, c), Node(COMP, e', t, a', b', c'))
            <==> && Alike(SubstDim(a, e, Dimension(f)), SubstDim(a', e', Dimension(f)))
                 && Alike(SubstList(b, e, Dimension(f), true, false), SubstList(b', e', Dimension(f), true, false))
                 && Alike(c, c')
  {
    RedirectedAlike(a, a', e, e', f);
    RedirectedTubesAlike(b, b', e, e', f);
  }

  lemma HomogeneousAlike(e: nat, e': nat, f: nat, s: Tag, t: Tag, a: Form, b: Form, c: Form, a': Form, b': Form,
                         c': Form)
    requires Standalone(b) && Standalone(b') && PlainList(b) && PlainList(b') && !DimFree(b, f) && !DimFree(b', f)
    ensures Alike(Node(HCOMP, e, s, a, b, c), Node(HCOMP, e', t, a', b', c'))
            <==> && Alike(a, a')
                 && Alike(SubstList(b, e, Dimension(f), true, false), SubstList(b', e', Dimension(f), true, false))
                 && Alike(c, c')
  {
    RedirectedTubesAlike(b, b', e, e', f);
  }

  /** A path application's annotation and an application's payload are passed over, and
      nothing else of these nodes. */
  lemma ApplicationsAlike(name: nat, name': nat, s: Tag, t: Tag, a: Form, b: Form, c: Form, a': Form, b': Form,
                          c': Form)
    ensures Alike(Node(APP, name, s, a, b, c), Node(APP, name', t, a', b', c'))
            <==> Alike(a, a') && Alike(b, b') && Alike(c, c')
    ensures Alike(Node(PAPP, name, s, a, b, c), Node(PAPP, name', t, a', b', c'))
            <==> s == t && Alike(a, a') && Alike(c, c')
  {
  }

  /** Of other nodes everything counts. */
  lemma LeavesAlike(kind: Kind, name: nat, name': nat, s: Tag, t: Tag, a: Form, b: Form, c: Form, a': Form, b': Form,
                    c': Form)
    requires kind in {VAR, BOUND, OPENED, CONTEXT, LEAF, TUBE}
    ensures Alike(Node(kind, name, s, a, b, c), Node(kind, name', t, a', b', c'))
            <==> s == t && Alike(a, a') && Alike(b, b') && Alike(c, c')
  {
  }

  // ---- Payloads --------------------------------------------------------------------------------------

  /** A path application and a tube have the dimensions of the formula that their payload
      names. */
  lemma FormulaDims(nodes: seq<Syntax>, meaning: seq<Form>, formulas: seq<FormulaEntry>, n: Syntax, d: Dim)
    requires GraphOk(nodes, meaning, formulas) && SyntaxOk(nodes, formulas, n, |nodes|) && n.kind in {PAPP, TUBE}
    ensures n.payload < |formulas|
    ensures d in FreeDims(NodeForm(formulas, meaning, n)) <==>
              || Mentions(SetOf(formulas[n.payload].list), d) || d in FreeDims(meaning[n.a])
              || d in FreeDims(meaning[n.b]) || d in FreeDims(meaning[n.c])
  {
    NodeNames(nodes, meaning, formulas, n);
    ListNamesMention(formulas[n.payload].list, d as nat);
  }

  /** A point of atoms that is the given point on native dimensions. */
  ghost function Native(v: Point<Dim>): Point<Atom> {
    Point(iset x: Atom | x.Free? && x.name < DIMENSIONS && (x.name as Dim) in v.one,
          iset x: Atom | x.Free? && x.name < DIMENSIONS && (x.name as Dim) in v.zero)
  }

  /** Registered formulas count by their sort and their value at every point. */
  lemma FormulasCount(formulas: seq<FormulaEntry>, kind: Kind, p: nat, q: nat)
    requires kind in {PAPP, TUBE} && p < |formulas| && q < |formulas|
    ensures TagOf(formulas, kind, p) == TagOf(formulas, kind, q) <==>
              && formulas[p].sort == formulas[q].sort
              && Equivalent(formulas[p].sort, SetOf(formulas[p].list), SetOf(formulas[q].list))
  {
    var sort, s, t := formulas[p].sort, SetOf(formulas[p].list), SetOf(formulas[q].list);
    LiftedNormal(sort, formulas[p].list);
    LiftedNormal(sort, formulas[q].list);
    if formulas[q].sort == sort && Equivalent(sort, s, t) {
      forall v: Point<Atom> | Admits(sort, v) ensures Holds(Renamed(sort, s, LiftDim), v) <==>
        Holds(Renamed(sort, t, LiftDim), v) {
        RenamedHolds(sort, s, LiftDim, v);
        RenamedHolds(sort, t, LiftDim, v);
      }
      Canonical(sort, Renamed(sort, s, LiftDim), Renamed(sort, t, LiftDim));
    }
    if formulas[q].sort == sort && Renamed(sort, s, LiftDim) == Renamed(sort, t, LiftDim) {
      forall v: Point<Dim> | Admits(sort, v) ensures Holds(s, v) <==> Holds(t, v) {
        var w := Native(v);
        assert Pulled(w, LiftDim).one == v.one && Pulled(w, LiftDim).zero == v.zero;
        RenamedHolds(sort, s, LiftDim, w);
        RenamedHolds(sort, t, LiftDim, w);
      }
    }
  }

  /** Leaves count by their payloads. */
  lemma PayloadsCount(formulas: seq<FormulaEntry>, kind: Kind, p: nat, q: nat)
    requires kind in {VAR, BOUND, OPENED, CONTEXT, LEAF}
    ensures TagOf(formulas, kind, p) == TagOf(formulas, kind, q) <==> p == q
  {
  }
}
