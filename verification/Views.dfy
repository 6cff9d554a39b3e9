/** What a comparison up to bound names means. An environment lists the binders crossed,
    a pair of names each; a form's view names each free name by the binding that it
    resolves to. Two terms agree under an environment when their views are equal.
    A path application's annotation and an application's payload carry nothing. */
module Views {
  import opened Lattice
  import opened Nameless
  import opened FreeNames

  datatype Pair = Pair(left: nat, right: nat)

  function Side(p: Pair, right: bool): nat { if right then p.right else p.left }

  /** The innermost binding of a name at position `p` is 2p+1; a free name x is 2x. */
  function Resolve(env: seq<Pair>, right: bool, x: nat): nat {
    if env == [] then 2 * x else
    var last := |env| - 1;
    if Side(env[last], right) == x then 2 * last + 1 else Resolve(env[..last], right, x)
  }

  lemma {:induction false} ResolveRange(env: seq<Pair>, right: bool, x: nat)
    ensures Resolve(env, right, x) == 2 * x || (Resolve(env, right, x) % 2 == 1 && Resolve(env, right, x) < 2 * |env|)
  {
    if env != [] { ResolveRange(env[..|env| - 1], right, x); }
  }

  lemma {:induction false} ResolveInjective(env: seq<Pair>, right: bool, x: nat, y: nat)
    requires Resolve(env, right, x) == Resolve(env, right, y)
    ensures x == y
  {
    if env != [] {
      var rest := env[..|env| - 1];
      ResolveRange(rest, right, x);
      ResolveRange(rest, right, y);
      if Side(env[|env| - 1], right) != x && Side(env[|env| - 1], right) != y { ResolveInjective(rest, right, x, y); }
    }
  }

  lemma ResolveNext(env: seq<Pair>, p: Pair, right: bool, x: nat)
    ensures Resolve(env + [p], right, x) == if x == Side(p, right) then 2 * |env| + 1 else Resolve(env, right, x)
    ensures Resolve(env, right, x) != 2 * |env| + 1
  {
    assert (env + [p])[..|env|] == env;
    ResolveRange(env, right, x);
  }

  // ---- Views ------------------------------------------------------------------------------

  function ViewAtom(dims: seq<Pair>, right: bool): Atom -> Atom {
    (x: Atom) => if x.Free? then Free(Resolve(dims, right, x.name)) else x
  }

  ghost function ViewTag(kind: Kind, tag: Tag, terms: seq<Pair>, dims: seq<Pair>, right: bool): Tag {
    if kind == APP then NoTag
    else if kind == VAR && tag.Name? && tag.atom.Free? then Name(Free(Resolve(terms, right, tag.atom.name)))
    else if tag.Formula? then Formula(tag.sort, Renamed(tag.sort, tag.clauses, ViewAtom(dims, right)))
    else tag
  }

  ghost function View(m: Form, terms: seq<Pair>, dims: seq<Pair>, right: bool): Form {
    match m
    case Absent => Absent
    case Form(kind, tag, a, b, c) =>
      Form(kind, ViewTag(kind, tag, terms, dims, right), View(a, terms, dims, right),
           if kind == PAPP then Absent else View(b, terms, dims, right), View(c, terms, dims, right))
  }

  /** A composition's tube list: its bodies are under the inner environment. */
  ghost function ViewTubes(m: Form, terms: seq<Pair>, dims: seq<Pair>, inner: seq<Pair>, right: bool): Form {
    match m
    case Absent => Absent
    case Form(kind, tag, a, b, c) =>
      Form(kind, ViewTag(kind, tag, terms, dims, right), View(a, terms, inner, right),
           ViewTubes(b, terms, dims, inner, right), View(c, terms, dims, right))
  }

  ghost predicate Same(m: Form, n: Form, terms: seq<Pair>, dims: seq<Pair>) {
    View(m, terms, dims, false) == View(n, terms, dims, true)
  }

  ghost predicate TubesSame(m: Form, n: Form, terms: seq<Pair>, dims: seq<Pair>, inner: seq<Pair>) {
    ViewTubes(m, terms, dims, inner, false) == ViewTubes(n, terms, dims, inner, true)
  }

  // ---- Views of formulas --------------------------------------------------------------------

  lemma ViewAtomInjective(dims: seq<Pair>, right: bool)
    ensures forall x, y :: ViewAtom(dims, right)(x) == ViewAtom(dims, right)(y) ==> x == y
  {
    forall x, y | ViewAtom(dims, right)(x) == ViewAtom(dims, right)(y) ensures x == y {
      if x.Free? && y.Free? { ResolveInjective(dims, right, x.name, y.name); }
    }
  }

  /** Two renamings that come to the same give the same formula. */
  lemma RenamedAlike(sort: Sort, s: set<Clause<Atom>>, g: Atom -> Atom, h: Atom -> Atom, g': Atom -> Atom,
                     h': Atom -> Atom)
    requires forall x :: h(g(x)) == h'(g'(x))
    ensures Renamed(sort, Renamed(sort, s, g), h) == Renamed(sort, Renamed(sort, s, g'), h')
  {
    var left, right := Renamed(sort, Renamed(sort, s, g), h), Renamed(sort, Renamed(sort, s, g'), h');
    RenamedHolds(sort, Renamed(sort, s, g), h, Generic<Atom>(Top()));
    RenamedHolds(sort, Renamed(sort, s, g'), h', Generic<Atom>(Top()));
    forall v: Point<Atom> | Admits(sort, v) ensures Holds(left, v) <==> Holds(right, v) {
      RenamedHolds(sort, Renamed(sort, s, g), h, v);
      RenamedHolds(sort, s, g, Pulled(v, h));
      RenamedHolds(sort, Renamed(sort, s, g'), h', v);
      RenamedHolds(sort, s, g', Pulled(v, h'));
      assert Pulled(Pulled(v, h), g).one == Pulled(Pulled(v, h'), g').one;
      assert Pulled(Pulled(v, h), g).zero == Pulled(Pulled(v, h'), g').zero;
    }
    Canonical(sort, left, right);
  }

  lemma ViewTagClosed(kind: Kind, tag: Tag, k: nat, terms: seq<Pair>, dims: seq<Pair>, p: Pair, right: bool)
    ensures ViewTag(kind, CloseTag(tag, k, Side(p, right)), terms, dims, right)
            == CloseTag(ViewTag(kind, tag, terms, dims + [p], right), k, 2 * |dims| + 1)
  {
    if tag.Formula? && kind != APP {
      var e, z := Side(p, right), 2 * |dims| + 1;
      forall x ensures ViewAtom(dims, right)(Closing(k, e)(x)) == Closing(k, z)(ViewAtom(dims + [p], right)(x)) {
        if x.Free? { ResolveNext(dims, p, right, x.name); }
      }
      RenamedAlike(tag.sort, tag.clauses, Closing(k, e), ViewAtom(dims, right), ViewAtom(dims + [p], right),
                   Closing(k, z));
    }
  }

  lemma ViewTagNormal(kind: Kind, tag: Tag, terms: seq<Pair>, dims: seq<Pair>, right: bool, k: nat, d: nat)
    requires TagClosed(tag, k, d)
    ensures var v := ViewTag(kind, tag, terms, dims, right);
            TagClosed(v, k, d) && (v.Formula? ==> Normal(v.sort, v.clauses)) && (kind == VAR && tag.Name? ==> v.Name?)
  {
    if tag.Formula? && kind != APP {
      RenamedHolds(tag.sort, tag.clauses, ViewAtom(dims, right), Generic<Atom>(Top()));
      forall i: nat | Mentions(ViewTag(kind, tag, terms, dims, right).clauses, Index(i)) ensures i < d {
        RenamedMentions(tag.sort, tag.clauses, ViewAtom(dims, right), Index(i));
      }
    }
  }

  // ---- Views under binders --------------------------------------------------------------------

  lemma {:induction false} ViewCloseTerm(m: Form, k: nat, terms: seq<Pair>, p: Pair, dims: seq<Pair>, right: bool)
    requires VariablesPlain(m)
    ensures View(CloseTerm(m, k, Side(p, right)), terms, dims, right)
            == CloseTerm(View(m, terms + [p], dims, right), k, 2 * |terms| + 1)
  {
    if m.Form? && m.kind == VAR {
      if m.tag.atom.Free? { ResolveNext(terms, p, right, m.tag.atom.name); }
    } else if m.Form? {
      ViewCloseTerm(m.a, k, terms, p, dims, right);
      ViewCloseTerm(m.b, if TermBinder(m.kind) then k + 1 else k, terms, p, dims, right);
      ViewCloseTerm(m.c, k, terms, p, dims, right);
    }
  }

  lemma {:induction false} ViewCloseDim(m: Form, k: nat, terms: seq<Pair>, dims: seq<Pair>, p: Pair, right: bool)
    ensures View(CloseDim(m, k, Side(p, right)), terms, dims, right)
            == CloseDim(View(m, terms, dims + [p], right), k, 2 * |dims| + 1)
    decreases m, 1
  {
    if m.Form? {
      ViewTagClosed(m.kind, m.tag, k, terms, dims, p, right);
      ViewCloseDim(m.a, if BindsFirst(m.kind) then k + 1 else k, terms, dims, p, right);
      if BindsTubes(m.kind) {
        ViewCloseList(m.b, k, terms, dims, p, right);
      } else {
        ViewCloseDim(m.b, if BindsSecond(m.kind) then k + 1 else k, terms, dims, p, right);
      }
      ViewCloseDim(m.c, k, terms, dims, p, right);
    }
  }

  lemma {:induction false} ViewCloseList(m: Form, k: nat, terms: seq<Pair>, dims: seq<Pair>, p: Pair, right: bool)
    ensures View(CloseList(m, k, Side(p, right)), terms, dims, right)
            == CloseList(View(m, terms, dims + [p], right), k, 2 * |dims| + 1)
    decreases m, 1
  {
    if m.Form? {
      ViewTagClosed(m.kind, m.tag, k, terms, dims, p, right);
      ViewCloseDim(m.a, k + 1, terms, dims, p, right);
      ViewCloseList(m.b, k, terms, dims, p, right);
      ViewCloseDim(m.c, k, terms, dims, p, right);
    }
  }

  lemma {:induction false} ViewCloseTubes(m: Form, terms: seq<Pair>, dims: seq<Pair>, p: Pair, right: bool)
    requires PlainList(m)
    ensures View(CloseTubes(m, Side(p, right)), terms, dims, right)
            == CloseTubes(ViewTubes(m, terms, dims, dims + [p], right), 2 * |dims| + 1)
  {
    if m.Form? {
      ViewCloseDim(m.a, 0, terms, dims, p, right);
      ViewCloseTubes(m.b, terms, dims, p, right);
    }
  }

  lemma {:induction false} ViewPlain(m: Form, terms: seq<Pair>, dims: seq<Pair>, right: bool)
    requires VariablesPlain(m)
    ensures VariablesPlain(View(m, terms, dims, right))
  {
    if m.Form? {
      ViewPlain(m.a, terms, dims, right);
      ViewPlain(m.b, terms, dims, right);
      ViewPlain(m.c, terms, dims, right);
    }
  }

  lemma {:induction false} ViewKeeps(m: Form, terms: seq<Pair>, dims: seq<Pair>, right: bool, k: nat, d: nat)
    requires Closed(m, k, d)
    ensures Closed(View(m, terms, dims, right), k, d) && Canonic(View(m, terms, dims, right))
    decreases m, 1
  {
    if m.Form? {
      ViewTagNormal(m.kind, m.tag, terms, dims, right, k, d);
      ViewKeeps(m.a, terms, dims, right, k, if BindsFirst(m.kind) then d + 1 else d);
      if BindsTubes(m.kind) {
        ViewListKeeps(m.b, terms, dims, right, k, d);
      } else {
        ViewKeeps(m.b, terms, dims, right, if TermBinder(m.kind) then k + 1 else k,
                  if BindsSecond(m.kind) then d + 1 else d);
      }
      ViewKeeps(m.c, terms, dims, right, k, d);
    }
  }

  lemma {:induction false} ViewListKeeps(m: Form, terms: seq<Pair>, dims: seq<Pair>, right: bool, k: nat, d: nat)
    requires ListClosed(m, k, d)
    ensures ListClosed(View(m, terms, dims, right), k, d) && Canonic(View(m, terms, dims, right))
    decreases m, 1
  {
    if m.Form? {
      ViewTagNormal(m.kind, m.tag, terms, dims, right, k, d);
      ViewKeeps(m.a, terms, dims, right, k, d + 1);
      ViewListKeeps(m.b, terms, dims, right, k, d);
      ViewKeeps(m.c, terms, dims, right, k, d);
    }
  }

  lemma {:induction false} ViewTubesKeeps(m: Form, terms: seq<Pair>, dims: seq<Pair>, inner: seq<Pair>, right: bool)
    requires PlainList(m)
    ensures PlainList(ViewTubes(m, terms, dims, inner, right)) && Canonic(ViewTubes(m, terms, dims, inner, right))
  {
    if m.Form? {
      ViewTagNormal(m.kind, m.tag, terms, dims, right, 0, 0);
      ViewKeeps(m.a, terms, inner, right, 0, 0);
      ViewTubesKeeps(m.b, terms, dims, inner, right);
    }
  }

  // ---- Closing loses nothing ------------------------------------------------------------------

  lemma {:induction false} CloseTermInjective(m: Form, n: Form, k: nat, d: nat, z: nat)
    requires CloseTerm(m, k, z) == CloseTerm(n, k, z) && VariablesPlain(m) && VariablesPlain(n)
    requires (Closed(m, k, d) && Closed(n, k, d)) || (ListClosed(m, k, d) && ListClosed(n, k, d))
    ensures m == n
  {
    if m.Form? && m.kind != VAR {
      if Closed(m, k, d) && Closed(n, k, d) {
        CloseTermInjective(m.a, n.a, k, if BindsFirst(m.kind) then d + 1 else d, z);
        CloseTermInjective(m.b, n.b, if TermBinder(m.kind) then k + 1 else k, if BindsSecond(m.kind) then d + 1 else d,
                           z);
      } else {
        CloseTermInjective(m.a, n.a, k, d + 1, z);
        CloseTermInjective(m.b, n.b, k, d, z);
      }
      CloseTermInjective(m.c, n.c, k, d, z);
    }
  }

  lemma CloseTagInjective(s: Tag, t: Tag, terms: nat, k: nat, z: nat)
    requires CloseTag(s, k, z) == CloseTag(t, k, z) && TagClosed(s, terms, k) && TagClosed(t, terms, k)
    requires s.Formula? ==> Normal(s.sort, s.clauses)
    requires t.Formula? ==> Normal(t.sort, t.clauses)
    ensures s == t
  {
    if s.Formula? {
      ClosingInjective(s, terms, k, z);
      ClosingInjective(t, terms, k, z);
      RenamedInjective(s.sort, s.clauses, Closing(k, z));
      RenamedInjective(t.sort, t.clauses, Closing(k, z));
      ClauseSetsEqual(s, t, terms, k, z);
      ClauseSetsEqual(t, s, terms, k, z);
      assert s.clauses == t.clauses;
    }
  }

  lemma ClosingInjective(s: Tag, terms: nat, k: nat, z: nat)
    requires s.Formula? && TagClosed(s, terms, k)
    ensures forall x, y :: Mentions(s.clauses, x) && Mentions(s.clauses, y) && Closing(k, z)(x) == Closing(k, z)(y) ==>
              x == y
  {
    forall x, y | Mentions(s.clauses, x) && Mentions(s.clauses, y)
        && Closing(k, z)(x) == Closing(k, z)(y) ensures x == y {
      assert x != Index(k) && y != Index(k);
    }
  }

  lemma ClauseSetsEqual(s: Tag, t: Tag, terms: nat, k: nat, z: nat)
    requires s.Formula? && t.Formula? && TagClosed(s, terms, k) && TagClosed(t, terms, k)
    requires RenamedClauses(s.clauses, Closing(k, z)) == RenamedClauses(t.clauses, Closing(k, z))
    ensures s.clauses <= t.clauses
  {
    var g := Closing(k, z);
    forall c | c in s.clauses ensures c in t.clauses {
      assert RenamedClause(c, g) in RenamedClauses(t.clauses, g);
      var e :| e in t.clauses && RenamedClause(e, g) == RenamedClause(c, g);
      ClosingClauses(c, e, s, t, terms, k, z);
    }
  }

  lemma ClosingLiteral(x: Atom, y: Atom, k: nat, z: nat)
    requires Closing(k, z)(x) == Closing(k, z)(y) && x != Index(k) && y != Index(k)
    ensures x == y
  {
  }

  lemma OntoClosing(a: set<Atom>, b: set<Atom>, k: nat, z: nat)
    requires Onto(a, b, Closing(k, z), Closing(k, z)) && Onto(b, a, Closing(k, z), Closing(k, z))
    requires Index(k) !in a && Index(k) !in b
    ensures a == b
  {
    var g := Closing(k, z);
    forall x, y | x in a && y in b && g(x) == g(y) ensures x == y { ClosingLiteral(x, y, k, z); }
    OntoEqual(a, b, g, g);
  }

  lemma NoIndexIn(s: Tag, terms: nat, k: nat, c: Clause<Atom>)
    requires s.Formula? && TagClosed(s, terms, k) && c in s.clauses
    ensures Index(k) !in c.positive && Index(k) !in c.negative
  {
    if Index(k) in c.positive || Index(k) in c.negative { assert Mentions(s.clauses, Index(k)); }
  }

  lemma ClosingClauses(c: Clause<Atom>, e: Clause<Atom>, s: Tag, t: Tag, terms: nat, k: nat, z: nat)
    requires s.Formula? && t.Formula? && TagClosed(s, terms, k) && TagClosed(t, terms, k) && c in s.clauses
    requires e in t.clauses
    requires RenamedClause(c, Closing(k, z)) == RenamedClause(e, Closing(k, z))
    ensures c == e
  {
    RenamedClauseEqual(c, e, Closing(k, z), Closing(k, z));
    NoIndexIn(s, terms, k, c);
    NoIndexIn(t, terms, k, e);
    OntoClosing(c.positive, e.positive, k, z);
    OntoClosing(c.negative, e.negative, k, z);
  }

  // ---- Renamed clauses, literal by literal ---------------------------------------------------

  /** Each literal of one side has the name of one of the other. */
  ghost predicate Onto(a: set<Atom>, b: set<Atom>, g: Atom -> Atom, h: Atom -> Atom) {
    forall x {:trigger Named(b, h, g(x))} :: x in a ==> Named(b, h, g(x))
  }

  ghost predicate Named(b: set<Atom>, h: Atom -> Atom, u: Atom) {
    exists y :: y in b && u == h(y)
  }

  lemma OntoEqual(a: set<Atom>, b: set<Atom>, g: Atom -> Atom, h: Atom -> Atom)
    requires Onto(a, b, g, h) && Onto(b, a, h, g) && forall x, y :: x in a && y in b && g(x) == h(y) ==> x == y
    ensures a == b
  {
    forall x | x in a ensures x in b {
      assert Named(b, h, g(x));
      var y :| y in b && g(x) == h(y);
    }
    forall y | y in b ensures y in a {
      assert Named(a, g, h(y));
      var x :| x in a && h(y) == g(x);
    }
  }

  lemma PointwiseClauses(s: set<Clause<Atom>>, g: Atom -> Atom, h: Atom -> Atom)
    requires forall x :: g(x) == h(x)
    ensures RenamedClauses(s, g) == RenamedClauses(s, h)
  {
    forall c ensures RenamedClause(c, g) == RenamedClause(c, h) {
      assert RenamedClause(c, g).positive == RenamedClause(c, h).positive;
      assert RenamedClause(c, g).negative == RenamedClause(c, h).negative;
    }
  }

  lemma ClausesIncluded(s: set<Clause<Atom>>, t: set<Clause<Atom>>, g: Atom -> Atom, h: Atom -> Atom)
    requires (forall x, y :: g(x) == h(y) ==> x == y) && RenamedClauses(s, g) <= RenamedClauses(t, h)
    ensures s <= t
  {
    forall c | c in s ensures c in t {
      assert RenamedClause(c, g) in RenamedClauses(t, h);
      var e :| e in t && RenamedClause(e, h) == RenamedClause(c, g);
      RenamedClauseEqual(c, e, g, h);
      OntoEqual(c.positive, e.positive, g, h);
      OntoEqual(c.negative, e.negative, g, h);
      assert c == e;
    }
  }

  lemma RenamedClauseEqual(c: Clause<Atom>, e: Clause<Atom>, g: Atom -> Atom, h: Atom -> Atom)
    ensures RenamedClause(c, g) == RenamedClause(e, h) <==>
            && Onto(c.positive, e.positive, g, h) && Onto(e.positive, c.positive, h, g)
            && Onto(c.negative, e.negative, g, h) && Onto(e.negative, c.negative, h, g)
  {
    var p, q := RenamedClause(c, g), RenamedClause(e, h);
    if p == q {
      forall x | x in c.positive ensures Named(e.positive, h, g(x)) { assert g(x) in p.positive; }
      forall y | y in e.positive ensures Named(c.positive, g, h(y)) { assert h(y) in q.positive; }
      forall x | x in c.negative ensures Named(e.negative, h, g(x)) { assert g(x) in p.negative; }
      forall y | y in e.negative ensures Named(c.negative, g, h(y)) { assert h(y) in q.negative; }
    }
    if Onto(c.positive, e.positive, g, h) && Onto(e.positive, c.positive, h, g)
       && Onto(c.negative, e.negative, g, h) && Onto(e.negative, c.negative, h, g) {
      OntoRenamed(c, e, g, h);
    }
  }

  lemma OntoImage(a: set<Atom>, b: set<Atom>, g: Atom -> Atom, h: Atom -> Atom)
    requires Onto(a, b, g, h) && Onto(b, a, h, g)
    ensures forall u :: Named(a, g, u) <==> Named(b, h, u)
  {
    forall u | Named(a, g, u) ensures Named(b, h, u) {
      var x :| x in a && u == g(x);
      assert Named(b, h, g(x));
    }
    forall u | Named(b, h, u) ensures Named(a, g, u) {
      var y :| y in b && u == h(y);
      assert Named(a, g, h(y));
    }
  }

  lemma OntoRenamed(c: Clause<Atom>, e: Clause<Atom>, g: Atom -> Atom, h: Atom -> Atom)
    requires Onto(c.positive, e.positive, g, h) && Onto(e.positive, c.positive, h, g)
    requires Onto(c.negative, e.negative, g, h) && Onto(e.negative, c.negative, h, g)
    ensures RenamedClause(c, g) == RenamedClause(e, h)
  {
    OntoImage(c.positive, e.positive, g, h);
    OntoImage(c.negative, e.negative, g, h);
    forall u ensures u in RenamedClause(c, g).positive <==> u in RenamedClause(e, h).positive {
      assert Named(c.positive, g, u) <==> Named(e.positive, h, u);
    }
    forall u ensures u in RenamedClause(c, g).negative <==> u in RenamedClause(e, h).negative {
      assert Named(c.negative, g, u) <==> Named(e.negative, h, u);
    }
  }

  lemma {:induction false} CloseDimInjective(m: Form, n: Form, terms: nat, k: nat, z: nat)
    requires Canonic(m) && Canonic(n)
    requires || (CloseDim(m, k, z) == CloseDim(n, k, z) && Closed(m, terms, k) && Closed(n, terms, k))
             || (CloseList(m, k, z) == CloseList(n, k, z) && ListClosed(m, terms, k) && ListClosed(n, terms, k))
    ensures m == n
  {
    if m.Form? {
      CloseTagInjective(m.tag, n.tag, terms, k, z);
      if CloseDim(m, k, z) == CloseDim(n, k, z) && Closed(m, terms, k) && Closed(n, terms, k) {
        CloseDimInjective(m.a, n.a, terms, if BindsFirst(m.kind) then k + 1 else k, z);
        CloseDimInjective(m.b, n.b, if TermBinder(m.kind) then terms + 1 else terms,
                          if BindsSecond(m.kind) then k + 1 else k, z);
      } else {
        CloseDimInjective(m.a, n.a, terms, k + 1, z);
        CloseDimInjective(m.b, n.b, terms, k, z);
      }
      CloseDimInjective(m.c, n.c, terms, k, z);
    }
  }

  lemma {:induction false} CloseTubesInjective(m: Form, n: Form, z: nat)
    requires CloseTubes(m, z) == CloseTubes(n, z) && PlainList(m) && PlainList(n) && Canonic(m) && Canonic(n)
    ensures m == n
  {
    if m.Form? {
      CloseDimInjective(m.a, n.a, 0, 0, z);
      CloseTubesInjective(m.b, n.b, z);
    }
  }

  // ---- Only names that occur matter -----------------------------------------------------------

  /** The two sides' names that an environment identifies. */
  predicate Related(env: seq<Pair>, x: nat, y: nat) { Resolve(env, false, x) == Resolve(env, true, y) }

  ghost predicate AgreeOn(xs: set<nat>, ys: set<nat>, env: seq<Pair>, env': seq<Pair>) {
    forall x, y :: x in xs && y in ys ==> (Related(env, x, y) <==> Related(env', x, y))
  }

  lemma AgreeOnSmaller(xs: set<nat>, ys: set<nat>, xs': set<nat>, ys': set<nat>, env: seq<Pair>, env': seq<Pair>)
    requires AgreeOn(xs, ys, env, env') && xs' <= xs && ys' <= ys
    ensures AgreeOn(xs', ys', env, env')
  {
  }

  lemma ViewAtomRelated(env: seq<Pair>, env': seq<Pair>, x: Atom, y: Atom)
    requires x.Free? && y.Free? ==> (Related(env, x.name, y.name) <==> Related(env', x.name, y.name))
    ensures ViewAtom(env, false)(x) == ViewAtom(env, true)(y) <==> ViewAtom(env', false)(x) == ViewAtom(env', true)(y)
  {
  }

  lemma OntoAgree(a: set<Atom>, b: set<Atom>, env: seq<Pair>, env': seq<Pair>, right: bool)
    requires forall x, y :: x in a && y in b ==>
               (ViewAtom(env, right)(x) == ViewAtom(env, !right)(y) <==>
                  ViewAtom(env', right)(x) == ViewAtom(env', !right)(y))
    requires Onto(a, b, ViewAtom(env, right), ViewAtom(env, !right))
    ensures Onto(a, b, ViewAtom(env', right), ViewAtom(env', !right))
  {
    forall x | x in a ensures Named(b, ViewAtom(env', !right), ViewAtom(env', right)(x)) {
      assert Named(b, ViewAtom(env, !right), ViewAtom(env, right)(x));
      var y :| y in b && ViewAtom(env, right)(x) == ViewAtom(env, !right)(y);
      assert ViewAtom(env', right)(x) == ViewAtom(env', !right)(y);
    }
  }

  function Literals(c: Clause<Atom>): set<Atom> { c.positive + c.negative }

  lemma ClauseAgree(c: Clause<Atom>, e: Clause<Atom>, env: seq<Pair>, env': seq<Pair>)
    requires forall x, y :: x in Literals(c) && y in Literals(e) && x.Free? && y.Free? ==>
               (Related(env, x.name, y.name) <==> Related(env', x.name, y.name))
    requires RenamedClause(c, ViewAtom(env, false)) == RenamedClause(e, ViewAtom(env, true))
    ensures RenamedClause(c, ViewAtom(env', false)) == RenamedClause(e, ViewAtom(env', true))
  {
    RenamedClauseEqual(c, e, ViewAtom(env, false), ViewAtom(env, true));
    forall x, y | x in Literals(c) && y in Literals(e)
      ensures ViewAtom(env, false)(x) == ViewAtom(env, true)(y) <==> ViewAtom(env', false)(x) == ViewAtom(env', true)(y)
    {
      ViewAtomRelated(env, env', x, y);
    }
    OntoAgree(c.positive, e.positive, env, env', false);
    OntoAgree(e.positive, c.positive, env, env', true);
    OntoAgree(c.negative, e.negative, env, env', false);
    OntoAgree(e.negative, c.negative, env, env', true);
    RenamedClauseEqual(c, e, ViewAtom(env', false), ViewAtom(env', true));
  }

  /** Formulas' views are equal just when their clauses match, view by view. */
  lemma FormulaViews(sort: Sort, s: set<Clause<Atom>>, t: set<Clause<Atom>>, env: seq<Pair>)
    requires Normal(sort, s) && Normal(sort, t)
    ensures Renamed(sort, s, ViewAtom(env, false)) == Renamed(sort, t, ViewAtom(env, true))
            <==> RenamedClauses(s, ViewAtom(env, false)) == RenamedClauses(t, ViewAtom(env, true))
  {
    ViewAtomInjective(env, false);
    ViewAtomInjective(env, true);
    RenamedInjective(sort, s, ViewAtom(env, false));
    RenamedInjective(sort, t, ViewAtom(env, true));
  }

  lemma ClausesAgree(s: set<Clause<Atom>>, t: set<Clause<Atom>>, env: seq<Pair>, env': seq<Pair>)
    requires AgreeOn(ClauseNames(s), ClauseNames(t), env, env')
    requires RenamedClauses(s, ViewAtom(env, false)) == RenamedClauses(t, ViewAtom(env, true))
    ensures RenamedClauses(s, ViewAtom(env', false)) == RenamedClauses(t, ViewAtom(env', true))
  {
    var g, h, g', h' := ViewAtom(env, false), ViewAtom(env, true), ViewAtom(env', false), ViewAtom(env', true);
    forall c | c in s ensures RenamedClause(c, g') in RenamedClauses(t, h') {
      assert RenamedClause(c, g) in RenamedClauses(t, h);
      var e :| e in t && RenamedClause(e, h) == RenamedClause(c, g);
      LiteralsAgree(s, t, c, e, env, env');
      ClauseAgree(c, e, env, env');
    }
    forall e | e in t ensures RenamedClause(e, h') in RenamedClauses(s, g') {
      assert RenamedClause(e, h) in RenamedClauses(s, g);
      var c :| c in s && RenamedClause(c, g) == RenamedClause(e, h);
      LiteralsAgree(s, t, c, e, env, env');
      ClauseAgree(c, e, env, env');
    }
    assert RenamedClauses(s, g') == RenamedClauses(t, h');
  }

  lemma LiteralsAgree(s: set<Clause<Atom>>, t: set<Clause<Atom>>, c: Clause<Atom>, e: Clause<Atom>, env: seq<Pair>,
                      env': seq<Pair>)
    requires AgreeOn(ClauseNames(s), ClauseNames(t), env, env') && c in s && e in t
    ensures forall x, y :: x in Literals(c) && y in Literals(e) && x.Free? && y.Free? ==>
              (Related(env, x.name, y.name) <==> Related(env', x.name, y.name))
  {
    forall x, y | x in Literals(c) && y in Literals(e) && x.Free? && y.Free?
      ensures Related(env, x.name, y.name) <==> Related(env', x.name, y.name)
    {
      assert x.name in ClauseNames(s) && y.name in ClauseNames(t);
    }
  }

  lemma TagsAgree(kind: Kind, s: Tag, t: Tag, terms: seq<Pair>, dims: seq<Pair>, terms': seq<Pair>, dims': seq<Pair>)
    requires (s.Formula? ==> Normal(s.sort, s.clauses)) && (t.Formula? ==> Normal(t.sort, t.clauses))
    requires kind == VAR && s.Name? && s.atom.Free? && t.Name? && t.atom.Free? ==>
               (Related(terms, s.atom.name, t.atom.name) <==> Related(terms', s.atom.name, t.atom.name))
    requires AgreeOn(TagDims(s), TagDims(t), dims, dims')
    requires ViewTag(kind, s, terms, dims, false) == ViewTag(kind, t, terms, dims, true)
    ensures ViewTag(kind, s, terms', dims', false) == ViewTag(kind, t, terms', dims', true)
  {
    if s.Formula? && kind != APP {
      FormulaViews(s.sort, s.clauses, t.clauses, dims);
      FormulaViews(s.sort, s.clauses, t.clauses, dims');
      ClausesAgree(s.clauses, t.clauses, dims, dims');
    }
  }

  /** Only the names that occur in the two terms matter to their comparison. */
  lemma {:induction false} OnlyOccurring(m: Form, n: Form, terms: seq<Pair>, dims: seq<Pair>, terms': seq<Pair>,
                                         dims': seq<Pair>)
    requires Canonic(m) && Canonic(n) && VariablesPlain(m) && VariablesPlain(n)
    requires AgreeOn(FreeTerms(m), FreeTerms(n), terms, terms') && AgreeOn(FreeDims(m), FreeDims(n), dims, dims')
    requires Same(m, n, terms, dims)
    ensures Same(m, n, terms', dims')
  {
    if m.Form? {
      AgreeOnSmaller(FreeDims(m), FreeDims(n), TagDims(m.tag), TagDims(n.tag), dims, dims');
      TagsAgree(m.kind, m.tag, n.tag, terms, dims, terms', dims');
      if m.kind != VAR {
        AgreeOnSmaller(FreeTerms(m), FreeTerms(n), FreeTerms(m.a), FreeTerms(n.a), terms, terms');
        AgreeOnSmaller(FreeTerms(m), FreeTerms(n), FreeTerms(m.b), FreeTerms(n.b), terms, terms');
        AgreeOnSmaller(FreeTerms(m), FreeTerms(n), FreeTerms(m.c), FreeTerms(n.c), terms, terms');
        AgreeOnSmaller(FreeDims(m), FreeDims(n), FreeDims(m.a), FreeDims(n.a), dims, dims');
        AgreeOnSmaller(FreeDims(m), FreeDims(n), FreeDims(m.b), FreeDims(n.b), dims, dims');
        AgreeOnSmaller(FreeDims(m), FreeDims(n), FreeDims(m.c), FreeDims(n.c), dims, dims');
        OnlyOccurring(m.a, n.a, terms, dims, terms', dims');
        if m.kind != PAPP { OnlyOccurring(m.b, n.b, terms, dims, terms', dims'); }
        OnlyOccurring(m.c, n.c, terms, dims, terms', dims');
      }
    }
  }

  predicate Identity(env: seq<Pair>) { forall i :: 0 <= i < |env| ==> env[i].left == env[i].right }

  lemma {:induction false} IdentityResolves(env: seq<Pair>, x: nat)
    requires Identity(env)
    ensures Resolve(env, false, x) == Resolve(env, true, x)
  {
    if env != [] { IdentityResolves(env[..|env| - 1], x); }
  }

  lemma IdentityRelates(env: seq<Pair>, x: nat, y: nat)
    requires Identity(env)
    ensures Related(env, x, y) <==> x == y
  {
    IdentityResolves(env, x);
    IdentityResolves(env, y);
    if Related(env, x, y) { ResolveInjective(env, true, x, y); }
  }

  /** A name that no binding has stays free. */
  lemma {:induction false} UnboundResolves(env: seq<Pair>, right: bool, x: nat)
    requires forall i :: 0 <= i < |env| ==> Side(env[i], right) != x
    ensures Resolve(env, right, x) == 2 * x
  {
    if env != [] { UnboundResolves(env[..|env| - 1], right, x); }
  }

  /** Environments that rename nothing, or nothing that occurs, can be dropped. */
  ghost predicate Droppable(env: seq<Pair>, xs: set<nat>, ys: set<nat>) {
    || Identity(env)
    || ((forall i :: 0 <= i < |env| ==> env[i].left !in xs) && (forall i :: 0 <= i < |env| ==> env[i].right !in ys))
  }

  lemma DroppableAgrees(env: seq<Pair>, xs: set<nat>, ys: set<nat>)
    requires Droppable(env, xs, ys)
    ensures AgreeOn(xs, ys, env, []) && AgreeOn(xs, ys, [], env)
  {
    forall x, y | x in xs && y in ys ensures Related(env, x, y) <==> Related([], x, y) {
      if Identity(env) {
        IdentityRelates(env, x, y);
      } else {
        UnboundResolves(env, false, x);
        UnboundResolves(env, true, y);
      }
    }
  }

  /** Dropping either environment, where it can be, changes no answer. */
  lemma Dropped(m: Form, n: Form, terms: seq<Pair>, dims: seq<Pair>)
    requires Canonic(m) && Canonic(n) && VariablesPlain(m) && VariablesPlain(n)
    ensures Droppable(terms, FreeTerms(m), FreeTerms(n)) ==> (Same(m, n, terms, dims) <==> Same(m, n, [], dims))
    ensures Droppable(dims, FreeDims(m), FreeDims(n)) ==> (Same(m, n, terms, dims) <==> Same(m, n, terms, []))
  {
    if Droppable(terms, FreeTerms(m), FreeTerms(n)) {
      DroppableAgrees(terms, FreeTerms(m), FreeTerms(n));
      if Same(m, n, terms, dims) { OnlyOccurring(m, n, terms, dims, [], dims); }
      if Same(m, n, [], dims) { OnlyOccurring(m, n, [], dims, terms, dims); }
    }
    if Droppable(dims, FreeDims(m), FreeDims(n)) {
      DroppableAgrees(dims, FreeDims(m), FreeDims(n));
      if Same(m, n, terms, dims) { OnlyOccurring(m, n, terms, dims, terms, []); }
      if Same(m, n, terms, []) { OnlyOccurring(m, n, terms, [], terms, dims); }
    }
  }

  /** Two forms that differ in nothing but what a comparison passes over: the payload of an
      application and the annotation, the second child, of a path application. */
  ghost predicate Alike(m: Form, n: Form) {
    if m.Absent? || n.Absent? then m == n else
    && m.kind == n.kind && Alike(m.a, n.a) && Alike(m.c, n.c)
    && match m.kind
       case APP => Alike(m.b, n.b)
       case PAPP => m.tag == n.tag
       case VAR | BOUND | OPENED | CONTEXT | LEAF | PI | LAM | PATH | PLAM | COMP | HCOMP | TRANS | TUBE =>
         m.tag == n.tag && Alike(m.b, n.b)
  }

  lemma {:induction false} AlikeItself(m: Form)
    ensures Alike(m, m)
  {
    if m.Form? {
      AlikeItself(m.a);
      AlikeItself(m.b);
      AlikeItself(m.c);
    }
  }

  /** No node of the form is an application or a path application. */
  predicate Plainly(m: Form) {
    m.Form? ==> m.kind != APP && m.kind != PAPP && Plainly(m.a) && Plainly(m.b) && Plainly(m.c)
  }

  /** Without applications nothing is passed over. */
  lemma {:induction false} PlainAlike(m: Form, n: Form)
    requires Plainly(m) && Plainly(n)
    ensures Alike(m, n) <==> m == n
  {
    if m.Form? && n.Form? {
      PlainAlike(m.a, n.a);
      PlainAlike(m.b, n.b);
      PlainAlike(m.c, n.c);
    }
  }

  /** Under no binder, the views are equal just when the nameless forms are alike. */
  lemma {:induction false} ViewsAlike(m: Form, n: Form)
    requires Canonic(m) && Canonic(n) && VariablesPlain(m) && VariablesPlain(n)
    ensures Same(m, n, [], []) <==> Alike(m, n)
  {
    if m.Form? && n.Form? && m.kind == n.kind {
      ViewsAlike(m.a, n.a);
      ViewsAlike(m.b, n.b);
      ViewsAlike(m.c, n.c);
      TagsAlike(m.kind, m.tag, n.tag);
    }
  }

  lemma TagsAlike(kind: Kind, s: Tag, t: Tag)
    requires (s.Formula? ==> Normal(s.sort, s.clauses)) && (t.Formula? ==> Normal(t.sort, t.clauses))
    ensures ViewTag(kind, s, [], [], false) == ViewTag(kind, t, [], [], true) <==> (kind == APP || s == t)
  {
    if kind != APP && s.Formula? && t.Formula? && s.sort == t.sort {
      FormulaViews(s.sort, s.clauses, t.clauses, []);
      var g, h := ViewAtom([], false), ViewAtom([], true);
      if RenamedClauses(s.clauses, g) == RenamedClauses(t.clauses, h) {
        ClausesIncluded(s.clauses, t.clauses, g, h);
        ClausesIncluded(t.clauses, s.clauses, h, g);
        assert s.clauses == t.clauses;
      }
      PointwiseClauses(s.clauses, g, h);
    }
  }

  // ---- Nodes, child by child ------------------------------------------------------------------

  lemma SameUnderTerm(m: Form, n: Form, terms: seq<Pair>, p: Pair, dims: seq<Pair>)
    requires Standalone(m) && Standalone(n)
    ensures Same(CloseTerm(m, 0, p.left), CloseTerm(n, 0, p.right), terms, dims) <==> Same(m, n, terms + [p], dims)
  {
    var v, w := View(m, terms + [p], dims, false), View(n, terms + [p], dims, true);
    ViewCloseTerm(m, 0, terms, p, dims, false);
    ViewCloseTerm(n, 0, terms, p, dims, true);
    ViewPlain(m, terms + [p], dims, false);
    ViewPlain(n, terms + [p], dims, true);
    ViewKeeps(m, terms + [p], dims, false, 0, 0);
    ViewKeeps(n, terms + [p], dims, true, 0, 0);
    if CloseTerm(v, 0, 2 * |terms| + 1) == CloseTerm(w, 0, 2 * |terms| + 1) {
      CloseTermInjective(v, w, 0, 0, 2 * |terms| + 1);
    }
  }

  lemma SameUnderDim(m: Form, n: Form, terms: seq<Pair>, dims: seq<Pair>, p: Pair)
    requires Standalone(m) && Standalone(n)
    ensures Same(CloseDim(m, 0, p.left), CloseDim(n, 0, p.right), terms, dims) <==> Same(m, n, terms, dims + [p])
  {
    var v, w := View(m, terms, dims + [p], false), View(n, terms, dims + [p], true);
    ViewCloseDim(m, 0, terms, dims, p, false);
    ViewCloseDim(n, 0, terms, dims, p, true);
    ViewKeeps(m, terms, dims + [p], false, 0, 0);
    ViewKeeps(n, terms, dims + [p], true, 0, 0);
    if CloseDim(v, 0, 2 * |dims| + 1) == CloseDim(w, 0, 2 * |dims| + 1) {
      CloseDimInjective(v, w, 0, 0, 2 * |dims| + 1);
    }
  }

  lemma SameUnderTubes(m: Form, n: Form, terms: seq<Pair>, dims: seq<Pair>, p: Pair)
    requires PlainList(m) && PlainList(n)
    ensures Same(CloseTubes(m, p.left), CloseTubes(n, p.right), terms, dims) <==>
              TubesSame(m, n, terms, dims, dims + [p])
  {
    var v, w := ViewTubes(m, terms, dims, dims + [p], false), ViewTubes(n, terms, dims, dims + [p], true);
    ViewCloseTubes(m, terms, dims, p, false);
    ViewCloseTubes(n, terms, dims, p, true);
    ViewTubesKeeps(m, terms, dims, dims + [p], false);
    ViewTubesKeeps(n, terms, dims, dims + [p], true);
    if CloseTubes(v, 2 * |dims| + 1) == CloseTubes(w, 2 * |dims| + 1) { CloseTubesInjective(v, w, 2 * |dims| + 1); }
  }

  /** How the first and second children of two nodes are compared: under the pair of
      their binders, where these bind. */
  ghost predicate FirstSame(kind: Kind, p: Pair, m: Form, n: Form, terms: seq<Pair>, dims: seq<Pair>) {
    Same(m, n, terms, if BindsFirst(kind) then dims + [p] else dims)
  }

  ghost predicate SecondSame(kind: Kind, p: Pair, m: Form, n: Form, terms: seq<Pair>, dims: seq<Pair>) {
    if kind == PAPP then true
    else if TermBinder(kind) then Same(m, n, terms + [p], dims)
    else if BindsTubes(kind) then TubesSame(m, n, terms, dims, dims + [p])
    else if BindsSecond(kind) then Same(m, n, terms, dims + [p])
    else Same(m, n, terms, dims)
  }

  ghost predicate TagsSame(kind: Kind, s: Tag, t: Tag, terms: seq<Pair>, dims: seq<Pair>) {
    ViewTag(kind, NodeTag(kind, s), terms, dims, false) == ViewTag(kind, NodeTag(kind, t), terms, dims, true)
  }

  /** Two nodes of one kind are the same just when their payloads and their children are,
      each child under its own environment. */
  lemma NodeSame(kind: Kind, p: Pair, s: Tag, t: Tag, a: Form, b: Form, c: Form, a': Form, b': Form, c': Form,
                 terms: seq<Pair>, dims: seq<Pair>)
    requires Standalone(a) && Standalone(b) && Standalone(a') && Standalone(b')
    requires BindsTubes(kind) ==> PlainList(b) && PlainList(b')
    ensures Same(Node(kind, p.left, s, a, b, c), Node(kind, p.right, t, a', b', c'), terms, dims)
            <==> TagsSame(kind, s, t, terms, dims) && FirstSame(kind, p, a, a', terms, dims)
                 && SecondSame(kind, p, b, b', terms, dims) && Same(c, c', terms, dims)
  {
    if BindsFirst(kind) { SameUnderDim(a, a', terms, dims, p); }
    SecondSameOk(kind, p, b, b', terms, dims);
  }

  lemma SecondSameOk(kind: Kind, p: Pair, b: Form, b': Form, terms: seq<Pair>, dims: seq<Pair>)
    requires Standalone(b) && Standalone(b')
    requires BindsTubes(kind) ==> PlainList(b) && PlainList(b')
    ensures kind != PAPP ==>
              (Same(BoundSecond(kind, p.left, b), BoundSecond(kind, p.right, b'), terms, dims) <==>
                 SecondSame(kind, p, b, b', terms, dims))
  {
    if TermBinder(kind) {
      SameUnderTerm(b, b', terms, p, dims);
    } else if BindsTubes(kind) {
      SameUnderTubes(b, b', terms, dims, p);
    } else if BindsSecond(kind) {
      SameUnderDim(b, b', terms, dims, p);
    }
  }

  /** Two tubes of compositions are the same just when their faces are, under the outer
      environment, their bodies under the inner one, and the rest of their lists. */
  lemma TubeSame(p: nat, q: nat, s: Tag, t: Tag, a: Form, b: Form, a': Form, b': Form, terms: seq<Pair>,
                 dims: seq<Pair>, inner: seq<Pair>)
    ensures TubesSame(Node(TUBE, p, s, a, b, Absent), Node(TUBE, q, t, a', b', Absent), terms, dims, inner)
            <==> TagsSame(TUBE, s, t, terms, dims) && Same(a, a', terms, inner) && TubesSame(b, b', terms, dims, inner)
  {
  }

  /** Variables are the same when they resolve to the same; other leaves by their
      numbers. */
  lemma LeafViews(kind: Kind, p: nat, q: nat, s: Tag, t: Tag, terms: seq<Pair>, dims: seq<Pair>)
    requires kind in {VAR, BOUND, OPENED, CONTEXT, LEAF}
    requires if kind == VAR then s == Name(Free(p)) && t == Name(Free(q)) else s == Number(p) && t == Number(q)
    ensures Same(Node(kind, p, s, Absent, Absent, Absent), Node(kind, q, t, Absent, Absent, Absent), terms, dims)
            <==> if kind == VAR then Related(terms, p, q) else p == q
  {
    var m, n := Node(kind, p, s, Absent, Absent, Absent), Node(kind, q, t, Absent, Absent, Absent);
    assert m == Form(kind, s, Absent, Absent, Absent) && n == Form(kind, t, Absent, Absent, Absent);
    assert View(m, terms, dims, false) == Form(kind, ViewTag(kind, s, terms, dims, false), Absent, Absent, Absent);
    assert View(n, terms, dims, true) == Form(kind, ViewTag(kind, t, terms, dims, true), Absent, Absent, Absent);
  }

  /** Nodes of different kinds are never the same. */
  lemma KindsDiffer(m: Form, n: Form, terms: seq<Pair>, dims: seq<Pair>)
    requires m.Form? && n.Form? && m.kind != n.kind
    ensures !Same(m, n, terms, dims)
  {
  }

  /** A term is the same as itself where nothing is renamed. */
  lemma {:induction false} SameItself(m: Form, terms: seq<Pair>, dims: seq<Pair>)
    requires Identity(terms) && Identity(dims) && Canonic(m) && VariablesPlain(m)
    ensures Same(m, m, terms, dims)
  {
    AlikeItself(m);
    ViewsAlike(m, m);
    Dropped(m, m, terms, dims);
    Dropped(m, m, [], dims);
  }
}
