/** term_conversion.c: the chains of binders that a comparison up to bound names crosses,
    and the comparison of names and of formulas under them. */
module Scopes {
  import opened Counting
  import opened Lattice
  import opened Nameless
  import opened FreeNames
  import opened Formulas
  import opened TermStore
  import opened Views

  // ---- Scopes -----------------------------------------------------------------------------

  /** A chain of binders crossed, the innermost first. The masks hold each name of the
      chain modulo their width. */
  datatype Scope =
    | Unscoped
    | Scope(left: nat, right: nat, id: nat, identity: bool, previous: Scope, leftMask: set<nat>, rightMask: set<nat>)

  function Env(s: Scope): seq<Pair> {
    if s.Unscoped? then [] else Env(s.previous) + [Pair(s.left, s.right)]
  }

  function IdOf(s: Scope): nat { if s.Unscoped? then 0 else s.id }

  ghost function Chain(chains: map<nat, seq<Pair>>, id: nat): seq<Pair> {
    if id in chains then chains[id] else []
  }

  /** Every number in use stands for one chain, and 0 for the empty one. */
  ghost predicate ChainsOk(chains: map<nat, seq<Pair>>, next: nat) {
    0 !in chains && forall id :: id in chains ==> id <= next
  }

  ghost predicate ScopeOk(chains: map<nat, seq<Pair>>, s: Scope) {
    s.Scope? ==>
      && s.id in chains && chains[s.id] == Env(s) && (s.identity <==> Identity(Env(s)))
      && (forall i :: 0 <= i < |Env(s)| ==> Env(s)[i].left % FILTER in s.leftMask)
      && (forall i :: 0 <= i < |Env(s)| ==> Env(s)[i].right % FILTER in s.rightMask)
      && ScopeOk(chains, s.previous)
  }

  lemma {:induction false} ScopeGrows(chains: map<nat, seq<Pair>>, chains': map<nat, seq<Pair>>, s: Scope)
    requires ScopeOk(chains, s) && chains.Keys <= chains'.Keys && forall id :: id in chains ==>
               chains'[id] == chains[id]
    ensures ScopeOk(chains', s)
  {
    if s.Scope? { ScopeGrows(chains, chains', s.previous); }
  }

  /** The position of the binding that a name resolves to, from 1, or 0. */
  function Bound(s: Scope, name: nat, right: bool): nat {
    if s.Unscoped? then 0
    else if (if right then s.right else s.left) == name then |Env(s)|
    else Bound(s.previous, name, right)
  }

  predicate SameName(a: nat, b: nat, s: Scope) {
    var left, right := Bound(s, a, false), Bound(s, b, true);
    if left != 0 || right != 0 then left != 0 && left == right else a == b
  }

  lemma {:induction false} BoundResolves(s: Scope, name: nat, right: bool)
    ensures Resolve(Env(s), right, name) == if Bound(s, name, right) == 0 then 2 * name
            else 2 * Bound(s, name, right) - 1
    ensures Bound(s, name, right) <= |Env(s)|
  {
    if s.Scope? {
      assert Env(s)[..|Env(s)| - 1] == Env(s.previous);
      BoundResolves(s.previous, name, right);
    }
  }

  lemma SameNameRelated(a: nat, b: nat, s: Scope)
    ensures SameName(a, b, s) <==> Related(Env(s), a, b)
  {
    BoundResolves(s, a, false);
    BoundResolves(s, b, true);
  }

  // ---- Formulas ---------------------------------------------------------------------------

  function DimView(s: Scope, right: bool): Dim -> Atom { (d: Dim) => Free(Resolve(Env(s), right, d)) }

  /** A clause's literals are all among the other's, by name. */
  ghost predicate Included(a: DimClause, b: DimClause, s: Scope) {
    && (forall i :: i in a.positive ==> HasName(b.positive, i, s))
    && (forall i :: i in a.negative ==> HasName(b.negative, i, s))
  }

  ghost predicate HasName(b: set<Dim>, i: Dim, s: Scope) {
    exists j :: j in b && SameName(i, j, s)
  }

  method FindName(b: set<Dim>, i: Dim, s: Scope) returns (found: bool)
    ensures found <==> HasName(b, i, s)
  {
    var j := 0;
    while j < DIMENSIONS
      invariant j <= DIMENSIONS && forall d: Dim :: d < j && d in b ==> !SameName(i, d, s)
    {
      if j in b && SameName(i, j, s) { return true; }
      j := j + 1;
    }
    return false;
  }

  method ClauseIncluded(a: DimClause, b: DimClause, s: Scope) returns (included: bool)
    ensures included <==> Included(a, b, s)
  {
    var i := 0;
    while i < DIMENSIONS
      invariant i <= DIMENSIONS
      invariant forall d: Dim :: d < i ==>
                  (d in a.positive ==> HasName(b.positive, d, s)) && (d in a.negative ==> HasName(b.negative, d, s))
    {
      if i in a.negative {
        var found := FindName(b.negative, i, s);
        if !found { return false; }
      }
      if i in a.positive {
        var found := FindName(b.positive, i, s);
        if !found { return false; }
      }
      i := i + 1;
    }
    return true;
  }

  function LiteralCount(c: DimClause): nat { |c.positive| + |c.negative| }

  ghost predicate ClauseSame(a: DimClause, b: DimClause, s: Scope) {
    LiteralCount(a) == LiteralCount(b) && Included(a, b, s)
  }

  ghost predicate ListHas(list: seq<DimClause>, a: DimClause, s: Scope) {
    exists j :: 0 <= j < |list| && ClauseSame(a, list[j], s)
  }

  ghost predicate ListsSame(l: seq<DimClause>, r: seq<DimClause>, s: Scope) {
    |l| == |r| && forall i :: 0 <= i < |l| ==> ListHas(r, l[i], s)
  }

  method ListEqual(l: seq<DimClause>, r: seq<DimClause>, s: Scope) returns (equal: bool)
    ensures equal <==> ListsSame(l, r, s)
  {
    if |l| != |r| { return false; }
    var i := 0;
    while i < |l|
      invariant i <= |l| && forall k :: 0 <= k < i ==> ListHas(r, l[k], s)
    {
      var j, found := 0, false;
      while j < |r| && !found
        invariant j <= |r| && (found ==> ListHas(r, l[i], s))
        invariant !found ==> forall k :: 0 <= k < j ==> !ClauseSame(l[i], r[k], s)
      {
        if LiteralCount(l[i]) == LiteralCount(r[j]) {
          var included := ClauseIncluded(l[i], r[j], s);
          if included { assert ClauseSame(l[i], r[j], s); }
          found := included;
        }
        j := j + 1;
      }
      if !found { return false; }
      i := i + 1;
    }
    return true;
  }

  // Counting literals makes the inclusion an equality: a renaming by binders loses none.

  function Image(a: set<Dim>, g: Dim -> Atom): set<Atom> { set d | d in a :: g(d) }

  lemma {:induction false} ImageCount(a: set<Dim>, g: Dim -> Atom)
    requires forall x: Dim, y: Dim :: g(x) == g(y) ==> x == y
    ensures |Image(a, g)| == |a|
  {
    if a != {} {
      var d :| d in a;
      ImageCount(a - {d}, g);
      assert Image(a, g) == Image(a - {d}, g) + {g(d)};
      assert g(d) !in Image(a - {d}, g);
    }
  }

  lemma DimViewInjective(s: Scope, right: bool)
    ensures forall x: Dim, y: Dim :: DimView(s, right)(x) == DimView(s, right)(y) ==> x == y
  {
    forall x: Dim, y: Dim | DimView(s, right)(x) == DimView(s, right)(y) ensures x == y {
      ResolveInjective(Env(s), right, x, y);
    }
  }

  lemma HasNameImage(b: set<Dim>, i: Dim, s: Scope)
    ensures HasName(b, i, s) <==> DimView(s, false)(i) in Image(b, DimView(s, true))
  {
    forall j: Dim ensures SameName(i, j, s) <==> DimView(s, false)(i) == DimView(s, true)(j) {
      SameNameRelated(i, j, s);
    }
  }

  lemma IncludedImages(a: DimClause, b: DimClause, s: Scope)
    ensures Included(a, b, s) <==> Image(a.positive, DimView(s, false)) <= Image(b.positive, DimView(s, true))
                                   && Image(a.negative, DimView(s, false)) <= Image(b.negative, DimView(s, true))
  {
    forall i: Dim ensures HasName(b.positive, i, s) <==> DimView(s, false)(i) in Image(b.positive, DimView(s, true)) {
      HasNameImage(b.positive, i, s);
    }
    forall i: Dim ensures HasName(b.negative, i, s) <==> DimView(s, false)(i) in Image(b.negative, DimView(s, true)) {
      HasNameImage(b.negative, i, s);
    }
  }

  lemma ClauseSameRenamed(a: DimClause, b: DimClause, s: Scope)
    ensures ClauseSame(a, b, s) <==> RenamedClause(a, DimView(s, false)) == RenamedClause(b, DimView(s, true))
  {
    var g, h := DimView(s, false), DimView(s, true);
    DimViewInjective(s, false);
    DimViewInjective(s, true);
    ImageCount(a.positive, g);
    ImageCount(a.negative, g);
    ImageCount(b.positive, h);
    ImageCount(b.negative, h);
    IncludedImages(a, b, s);
    assert RenamedClause(a, g).positive == Image(a.positive, g) && RenamedClause(a, g).negative == Image(a.negative, g);
    assert RenamedClause(b, h).positive == Image(b.positive, h) && RenamedClause(b, h).negative == Image(b.negative, h);
    if ClauseSame(a, b, s) {
      SubsetSize(Image(a.positive, g), Image(b.positive, h));
      SubsetSize(Image(a.negative, g), Image(b.negative, h));
    }
  }

  lemma {:induction false} RenamedCount(s: set<DimClause>, g: Dim -> Atom)
    requires forall c, e :: c in s && e in s && RenamedClause(c, g) == RenamedClause(e, g) ==> c == e
    ensures |RenamedClauses(s, g)| == |s|
  {
    if s != {} {
      var c :| c in s;
      RenamedCount(s - {c}, g);
      assert RenamedClauses(s, g) == RenamedClauses(s - {c}, g) + {RenamedClause(c, g)};
      assert RenamedClause(c, g) !in RenamedClauses(s - {c}, g);
    }
  }

  lemma ListCount(sort: Sort, list: seq<DimClause>, s: Scope, right: bool)
    requires ListNormal(sort, list)
    ensures |RenamedClauses(SetOf(list), DimView(s, right))| == |list|
    ensures Renamed(sort, SetOf(list), DimView(s, right)) == RenamedClauses(SetOf(list), DimView(s, right))
  {
    var g := DimView(s, right);
    DimViewInjective(s, right);
    ListNormalIsNormal(sort, list);
    RenamedInjective(sort, SetOf(list), g);
    forall i, j | 0 <= i < j < |list| ensures list[i] != list[j] { assert !Below(list[i], list[j]); }
    DistinctSize(list);
    forall c, e | c in SetOf(list) && e in SetOf(list) && RenamedClause(c, g) == RenamedClause(e, g) ensures c == e {
      assert Below(RenamedClause(c, g), RenamedClause(e, g));
    }
    RenamedCount(SetOf(list), g);
  }

  /** Lists of clauses that match one by one are the same formula, whatever their order. */
  lemma ListsSameRenamed(sort: Sort, l: seq<DimClause>, r: seq<DimClause>, s: Scope)
    requires ListNormal(sort, l) && ListNormal(sort, r)
    ensures ListsSame(l, r, s) <==>
              Renamed(sort, SetOf(l), DimView(s, false)) == Renamed(sort, SetOf(r), DimView(s, true))
  {
    var g, h := DimView(s, false), DimView(s, true);
    var left, right := RenamedClauses(SetOf(l), g), RenamedClauses(SetOf(r), h);
    ListCount(sort, l, s, false);
    ListCount(sort, r, s, true);
    forall c: DimClause ensures ListHas(r, c, s) <==> RenamedClause(c, g) in right { ListHasRenamed(r, c, s); }
    if ListsSame(l, r, s) {
      forall u | u in left ensures u in right {
        var c :| c in SetOf(l) && u == RenamedClause(c, g);
        var i :| 0 <= i < |l| && l[i] == c;
        assert ListHas(r, l[i], s);
      }
      SubsetSize(left, right);
    }
    if left == right {
      forall i | 0 <= i < |l| ensures ListHas(r, l[i], s) {
        assert l[i] in SetOf(l);
        assert RenamedClause(l[i], g) in left;
      }
    }
  }

  lemma ListHasRenamed(r: seq<DimClause>, c: DimClause, s: Scope)
    ensures ListHas(r, c, s) <==> RenamedClause(c, DimView(s, false)) in RenamedClauses(SetOf(r), DimView(s, true))
  {
    var g, h := DimView(s, false), DimView(s, true);
    if ListHas(r, c, s) {
      var j :| 0 <= j < |r| && ClauseSame(c, r[j], s);
      ClauseSameRenamed(c, r[j], s);
      assert r[j] in SetOf(r);
    }
    if RenamedClause(c, g) in RenamedClauses(SetOf(r), h) {
      var e :| e in SetOf(r) && RenamedClause(c, g) == RenamedClause(e, h);
      ClauseSameRenamed(c, e, s);
      var j :| 0 <= j < |r| && r[j] == e;
      assert ClauseSame(c, r[j], s);
    }
  }

  /** Registered formulas with their dimensions named by an environment. */
  lemma ViewLifted(sort: Sort, list: seq<DimClause>, s: Scope, right: bool)
    ensures Renamed(sort, LiftedList(sort, list), ViewAtom(Env(s), right))
            == Renamed(sort, SetOf(list), DimView(s, right))
  {
    var g := ViewAtom(Env(s), right);
    var lhs, rhs := Renamed(sort, LiftedList(sort, list), g), Renamed(sort, SetOf(list), DimView(s, right));
    RenamedHolds(sort, LiftedList(sort, list), g, Generic<Atom>(Top()));
    RenamedHolds(sort, SetOf(list), DimView(s, right), Generic<Atom>(Top()));
    forall v: Point<Atom> | Admits(sort, v) ensures Holds(lhs, v) <==> Holds(rhs, v) {
      RenamedHolds(sort, LiftedList(sort, list), g, v);
      RenamedHolds(sort, SetOf(list), LiftDim, Pulled(v, g));
      RenamedHolds(sort, SetOf(list), DimView(s, right), v);
      assert Pulled(Pulled(v, g), LiftDim).one == Pulled(v, DimView(s, right)).one;
      assert Pulled(Pulled(v, g), LiftDim).zero == Pulled(v, DimView(s, right)).zero;
    }
    Canonical(sort, lhs, rhs);
  }

  /** What the comparison of two registered formulas decides. */
  lemma FormulasSame(formulas: seq<FormulaEntry>, kind: Kind, a: nat, b: nat, terms: seq<Pair>, s: Scope)
    requires FormulasOk(formulas) && a < |formulas| && b < |formulas| && UsesFormula(kind)
    ensures TagsSame(kind, TagOf(formulas, kind, a), TagOf(formulas, kind, b), terms, Env(s))
            <==> formulas[a].sort == formulas[b].sort && ListsSame(formulas[a].list, formulas[b].list, s)
  {
    ViewLifted(formulas[a].sort, formulas[a].list, s, false);
    ViewLifted(formulas[b].sort, formulas[b].list, s, true);
    if formulas[a].sort == formulas[b].sort {
      ListsSameRenamed(formulas[a].sort, formulas[a].list, formulas[b].list, s);
    }
  }
}
