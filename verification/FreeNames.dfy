/** The free names of nameless trees, exactly, node by node. */
module FreeNames {
  import opened Lattice
  import opened Nameless

  // ---- Term names ---------------------------------------------------------------------

  lemma {:induction false} CloseDimTerms(m: Form, k: nat, e: nat)
    ensures FreeTerms(CloseDim(m, k, e)) == FreeTerms(m)
    ensures FreeTerms(CloseList(m, k, e)) == FreeTerms(m)
    ensures FreeTerms(CloseTubes(m, e)) == FreeTerms(m)
  {
    if m.Form? {
      CloseDimTerms(m.a, k, e);
      CloseDimTerms(m.a, k + 1, e);
      CloseDimTerms(m.a, 0, e);
      CloseDimTerms(m.b, k, e);
      CloseDimTerms(m.b, k + 1, e);
      CloseDimTerms(m.c, k, e);
    }
  }

  /** The free term names of a node, from those of its children. */
  lemma NodeTerms(kind: Kind, name: nat, tag: Tag, a: Form, b: Form, c: Form)
    ensures FreeTerms(Node(kind, name, tag, a, b, c)) ==
            if kind == VAR then (if tag.Name? && tag.atom.Free? then {tag.atom.name} else {})
            else FreeTerms(a) + (if TermBinder(kind) then FreeTerms(b) - {name} else FreeTerms(b)) + FreeTerms(c)
  {
    CloseDimTerms(a, 0, name);
    CloseDimTerms(b, 0, name);
    CloseTermFree(b, 0, name);
  }

  // ---- Dimensions ---------------------------------------------------------------------

  ghost function ClauseNames(clauses: set<Clause<Atom>>): set<nat> {
    set c, x | c in clauses && x in c.positive + c.negative && x.Free? :: x.name
  }

  ghost function TagDims(tag: Tag): set<nat> {
    if tag.Formula? then ClauseNames(tag.clauses) else {}
  }

  ghost function FreeDims(m: Form): set<nat> {
    match m
    case Absent => {}
    case Form(kind, tag, a, b, c) => TagDims(tag) + FreeDims(a) + FreeDims(b) + FreeDims(c)
  }

  lemma TagDimsMention(tag: Tag, d: nat)
    ensures d in TagDims(tag) <==> TagMentions(tag, d)
  {
    if TagMentions(tag, d) {
      var c :| c in tag.clauses && (Free(d) in c.positive || Free(d) in c.negative);
      assert Free(d) in c.positive + c.negative;
    }
  }

  lemma {:induction false} FreeDimsAreFree(m: Form, d: nat)
    ensures d in FreeDims(m) <==> DimFree(m, d)
  {
    if m.Form? {
      TagDimsMention(m.tag, d);
      FreeDimsAreFree(m.a, d);
      FreeDimsAreFree(m.b, d);
      FreeDimsAreFree(m.c, d);
    }
  }

  /** Closing a formula whose indices are all bound inside loses exactly one name. */
  lemma CloseTagDims(tag: Tag, terms: nat, k: nat, e: nat)
    requires tag.Formula? ==> Normal(tag.sort, tag.clauses)
    requires TagClosed(tag, terms, k)
    ensures TagDims(CloseTag(tag, k, e)) == TagDims(tag) - {e}
  {
    if tag.Formula? {
      var s, g := tag.clauses, Closing(k, e);
      forall x, y | Mentions(s, x) && Mentions(s, y) && g(x) == g(y) ensures x == y {
        assert x != Index(k) && y != Index(k);
      }
      RenamedInjective(tag.sort, s, g);
      forall d ensures d in TagDims(CloseTag(tag, k, e)) <==> d in TagDims(tag) && d != e {
        if d in TagDims(CloseTag(tag, k, e)) {
          TagDimsMention(CloseTag(tag, k, e), d);
          CloseTagCanonic(tag, k, e);
          TagDimsMention(tag, d);
        }
        if d in TagDims(tag) && d != e {
          var c, x :| c in s && x in c.positive + c.negative && x.Free? && x.name == d;
          assert g(x) == x && RenamedClause(c, g) in RenamedClauses(s, g);
          assert x in RenamedClause(c, g).positive + RenamedClause(c, g).negative;
        }
      }
    }
  }

  lemma MinusUnion(p: set<nat>, q: set<nat>, r: set<nat>, t: set<nat>, e: nat)
    ensures (p - {e}) + (q - {e}) + (r - {e}) + (t - {e}) == p + q + r + t - {e}
  {
  }

  lemma {:induction false} CloseDimDims(m: Form, terms: nat, k: nat, e: nat)
    requires Canonic(m) && Closed(m, terms, k)
    ensures FreeDims(CloseDim(m, k, e)) == FreeDims(m) - {e}
    decreases m, 1
  {
    if m.Form? {
      var n := CloseDim(m, k, e);
      CloseTagDims(m.tag, terms, k, e);
      CloseDimDims(m.a, terms, if BindsFirst(m.kind) then k + 1 else k, e);
      CloseSecondDims(m, terms, k, e);
      CloseDimDims(m.c, terms, k, e);
      MinusUnion(TagDims(m.tag), FreeDims(m.a), FreeDims(m.b), FreeDims(m.c), e);
      assert FreeDims(n) == TagDims(n.tag) + FreeDims(n.a) + FreeDims(n.b) + FreeDims(n.c);
    }
  }

  lemma {:induction false} CloseSecondDims(m: Form, terms: nat, k: nat, e: nat)
    requires m.Form? && Canonic(m) && Closed(m, terms, k)
    ensures FreeDims(CloseDim(m, k, e).b) == FreeDims(m.b) - {e}
    decreases m, 0
  {
    if BindsTubes(m.kind) {
      CloseListDims(m.b, terms, k, e);
    } else {
      CloseDimDims(m.b, if TermBinder(m.kind) then terms + 1 else terms, if BindsSecond(m.kind) then k + 1 else k, e);
    }
  }

  lemma {:induction false} CloseListDims(m: Form, terms: nat, k: nat, e: nat)
    requires Canonic(m) && ListClosed(m, terms, k)
    ensures FreeDims(CloseList(m, k, e)) == FreeDims(m) - {e}
    decreases m, 1
  {
    if m.Form? {
      var n := CloseList(m, k, e);
      CloseTagDims(m.tag, terms, k, e);
      CloseDimDims(m.a, terms, k + 1, e);
      CloseListDims(m.b, terms, k, e);
      CloseDimDims(m.c, terms, k, e);
      MinusUnion(TagDims(m.tag), FreeDims(m.a), FreeDims(m.b), FreeDims(m.c), e);
      assert FreeDims(n) == TagDims(n.tag) + FreeDims(n.a) + FreeDims(n.b) + FreeDims(n.c);
    }
  }

  lemma {:induction false} CloseTermFreeDims(m: Form, k: nat, y: nat)
    requires VariablesPlain(m)
    ensures FreeDims(CloseTerm(m, k, y)) == FreeDims(m)
  {
    if m.Form? && m.kind != VAR {
      CloseTermFreeDims(m.a, k, y);
      CloseTermFreeDims(m.b, if TermBinder(m.kind) then k + 1 else k, y);
      CloseTermFreeDims(m.c, k, y);
    }
  }

  /** A variable is a leaf. */
  ghost predicate VariablesPlain(m: Form) {
    match m
    case Absent => true
    case Form(kind, tag, a, b, c) =>
      (kind == VAR ==> tag.Name? && a == b == c == Absent) && VariablesPlain(a) && VariablesPlain(b)
          && VariablesPlain(c)
  }

  /** The dimensions of a tube list under the direction `e`: the faces', and the
      bodies' without `e`. */
  ghost function ListDims(m: Form, e: nat): set<nat> {
    match m
    case Absent => {}
    case Form(kind, tag, a, b, c) => TagDims(tag) + (FreeDims(a) - {e}) + ListDims(b, e) + FreeDims(c)
  }

  lemma {:induction false} CloseTubesDims(m: Form, e: nat)
    requires Canonic(m) && PlainList(m)
    ensures FreeDims(CloseTubes(m, e)) == ListDims(m, e)
  {
    if m.Form? {
      CloseDimDims(m.a, 0, 0, e);
      CloseTubesDims(m.b, e);
    }
  }

  /** A tube list of standalone bodies. */
  ghost predicate PlainList(m: Form) {
    match m
    case Absent => true
    case Form(kind, tag, a, b, c) =>
      kind == TUBE && TagClosed(tag, 0, 0) && Closed(a, 0, 0) && PlainList(b) && c == Absent
  }

  /** The forms of whole terms: canonical formulas, and no unbound index. */
  ghost predicate Standalone(m: Form) {
    Canonic(m) && VariablesPlain(m) && Closed(m, 0, 0)
  }

  ghost function FirstDims(kind: Kind, name: nat, a: Form): set<nat> {
    if BindsFirst(kind) then FreeDims(a) - {name} else FreeDims(a)
  }

  ghost function SecondDims(kind: Kind, name: nat, b: Form): set<nat> {
    if BindsTubes(kind) then ListDims(b, name)
    else if BindsSecond(kind) then FreeDims(b) - {name}
    else FreeDims(b)
  }

  /** The free dimensions of a node, from those of its children. */
  lemma NodeDims(kind: Kind, name: nat, tag: Tag, a: Form, b: Form, c: Form)
    requires Standalone(a) && Standalone(b) && Standalone(c)
    requires BindsTubes(kind) ==> PlainList(b)
    ensures FreeDims(Node(kind, name, tag, a, b, c))
            == TagDims(NodeTag(kind, tag)) + FirstDims(kind, name, a) + SecondDims(kind, name, b) + FreeDims(c)
  {
    if BindsFirst(kind) { CloseDimDims(a, 0, 0, name); }
    SecondDimsExact(kind, name, b);
  }

  lemma SecondDimsExact(kind: Kind, name: nat, b: Form)
    requires Standalone(b)
    requires BindsTubes(kind) ==> PlainList(b)
    ensures FreeDims(BoundSecond(kind, name, b)) == SecondDims(kind, name, b)
  {
    if TermBinder(kind) {
      CloseTermFreeDims(b, 0, name);
    } else if BindsTubes(kind) {
      CloseTubesDims(b, name);
    } else if BindsSecond(kind) {
      CloseDimDims(b, 0, 0, name);
    }
  }

  /** The form of a node over standalone children stands alone: every index in it is
      bound in it. */
  lemma NodeStandalone(kind: Kind, name: nat, tag: Tag, a: Form, b: Form, c: Form)
    requires Standalone(a) && Standalone(b) && Standalone(c)
    requires tag.Formula? ==> Normal(tag.sort, tag.clauses)
    requires TagClosed(tag, 0, 0)
    requires kind == VAR ==> tag.Name? && a == b == c == Absent
    requires BindsTubes(kind) ==> PlainList(b)
    ensures Standalone(Node(kind, name, tag, a, b, c))
  {
    FirstStandalone(kind, name, a);
    SecondStandalone(kind, name, b);
  }

  lemma FirstStandalone(kind: Kind, name: nat, a: Form)
    requires Standalone(a)
    ensures Canonic(BoundFirst(kind, name, a)) && VariablesPlain(BoundFirst(kind, name, a))
    ensures Closed(BoundFirst(kind, name, a), 0, if BindsFirst(kind) then 1 else 0)
  {
    if BindsFirst(kind) {
      CloseDimCanonic(a, 0, name);
      ClosePlain(a, 0, name);
      CloseDimClosed(a, 0, 0, name);
    }
  }

  lemma SecondStandalone(kind: Kind, name: nat, b: Form)
    requires Standalone(b)
    requires BindsTubes(kind) ==> PlainList(b)
    ensures Canonic(BoundSecond(kind, name, b)) && VariablesPlain(BoundSecond(kind, name, b))
    ensures if BindsTubes(kind) then ListClosed(BoundSecond(kind, name, b), 0, 0)
            else Closed(BoundSecond(kind, name, b), if TermBinder(kind) then 1 else 0,
                        if BindsSecond(kind) then 1 else 0)
  {
    ClosePlain(b, 0, name);
    if TermBinder(kind) {
      CloseTermDims(b, 0, name);
      CloseTermClosed(b, 0, 0, name);
    } else if BindsTubes(kind) {
      CloseDimCanonic(b, 0, name);
      TubesListClosed(b, name);
    } else if BindsSecond(kind) {
      CloseDimCanonic(b, 0, name);
      CloseDimClosed(b, 0, 0, name);
    }
  }

  lemma {:induction false} ClosePlain(m: Form, k: nat, e: nat)
    requires VariablesPlain(m)
    ensures VariablesPlain(CloseDim(m, k, e)) && VariablesPlain(CloseList(m, k, e)) && VariablesPlain(CloseTubes(m, e))
    ensures VariablesPlain(CloseTerm(m, k, e))
  {
    if m.Form? {
      ClosePlain(m.a, k, e);
      ClosePlain(m.a, k + 1, e);
      ClosePlain(m.a, 0, e);
      ClosePlain(m.b, k, e);
      ClosePlain(m.b, k + 1, e);
      ClosePlain(m.c, k, e);
    }
  }

  lemma {:induction false} TubesListClosed(m: Form, e: nat)
    requires PlainList(m)
    ensures ListClosed(CloseTubes(m, e), 0, 0)
  {
    if m.Form? {
      CloseDimClosed(m.a, 0, 0, e);
      TubesListClosed(m.b, e);
    }
  }
}
