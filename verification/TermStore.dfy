/** term_store.c, syntax_cache.c and the dependency scans of term_substitution.c: nodes
    with conservative masks, registered formulas, a lossy memo with exact keys, and a
    step budget. `meaning` holds each handle's nameless tree. */
module TermStore {
  import opened Lattice
  import opened Nameless
  import opened FreeNames
  import opened LocallyNameless
  import opened Formulas

  const MAX_SYMBOL := 0xffffffff
  const FILTER := 64
  const MAX_DEPTH := 512

  datatype Syntax = Syntax(kind: Kind, payload: nat, a: nat, b: nat, c: nat)

  datatype FormulaEntry = FormulaEntry(sort: Sort, list: seq<DimClause>)

  function Arity(kind: Kind): nat {
    match kind
    case VAR | BOUND | OPENED | CONTEXT | LEAF => 0
    case PATH | COMP | HCOMP | TRANS => 3
    case _ => 2
  }

  function Child(n: Syntax, i: nat): nat
    requires i < 3
  {
    if i == 0 then n.a else if i == 1 then n.b else n.c
  }

  function WithChild(n: Syntax, i: nat, h: nat): Syntax
    requires i < 3
  {
    if i == 0 then n.(a := h) else if i == 1 then n.(b := h) else n.(c := h)
  }

  /** The children a node may lack: an annotation, or the rest of a list. */
  predicate Optional(kind: Kind, i: nat) { i == 1 && kind in {PAPP, TUBE, COMP, HCOMP} }

  predicate LacksChild(n: Syntax) {
    exists i: nat :: i < 3 && i < Arity(n.kind) && Child(n, i) == 0 && !Optional(n.kind, i)
  }

  predicate UsesFormula(kind: Kind) { kind == PAPP || kind == TUBE }

  // ---- Formulas as tags ---------------------------------------------------------------

  function LiftDim(d: Dim): Atom { Free(d) }

  /** A clause list as a formula over atoms, all of them free. */
  ghost function LiftedList(sort: Sort, list: seq<DimClause>): set<Clause<Atom>> {
    Renamed(sort, SetOf(list), LiftDim)
  }

  ghost function Lifted(e: FormulaEntry): set<Clause<Atom>> { LiftedList(e.sort, e.list) }

  ghost function TagOf(formulas: seq<FormulaEntry>, kind: Kind, payload: nat): Tag {
    if kind == VAR then Name(Free(payload))
    else if UsesFormula(kind) && payload < |formulas| then Formula(formulas[payload].sort, Lifted(formulas[payload]))
    else Number(payload)
  }

  lemma LiftedNormal(sort: Sort, list: seq<DimClause>)
    ensures Normal(sort, LiftedList(sort, list))
    ensures forall x :: Mentions(LiftedList(sort, list), x) ==> x.Free? && x.name < DIMENSIONS
  {
    RenamedHolds(sort, SetOf(list), LiftDim, Generic<Atom>(Top()));
    forall x | Mentions(LiftedList(sort, list), x) ensures x.Free? && x.name < DIMENSIONS {
      RenamedMentions(sort, SetOf(list), LiftDim, x);
    }
  }

  /** Lists with the same clauses are the same formula. */
  lemma LiftedMentions(sort: Sort, list: seq<DimClause>, d: nat)
    requires ListNormal(sort, list)
    ensures d in ClauseNames(LiftedList(sort, list)) <==> d < DIMENSIONS && Mentions(SetOf(list), d as Dim)
  {
    ListNormalIsNormal(sort, list);
    RenamedInjective(sort, SetOf(list), LiftDim);
    TagDimsMention(Formula(sort, LiftedList(sort, list)), d);
    LiftedNormal(sort, list);
    if Mentions(LiftedList(sort, list), Free(d)) {
      RenamedMentions(sort, SetOf(list), LiftDim, Free(d));
    }
    if d < DIMENSIONS && Mentions(SetOf(list), d as Dim) {
      var c :| c in SetOf(list) && (d in c.positive || d in c.negative);
      assert RenamedClause(c, LiftDim) in LiftedList(sort, list);
      assert LiftDim(d) in RenamedClause(c, LiftDim).positive || LiftDim(d) in RenamedClause(c, LiftDim).negative;
    }
  }

  /** Substitution in clause lists is substitution in formulas over atoms. */
  lemma LiftedSubstitution(sort: Sort, list: seq<DimClause>, d: Dim, value: seq<DimClause>, result: seq<DimClause>)
    requires SetOf(result) == Substituted(sort, SetOf(list), d, SetOf(value))
    ensures LiftedList(sort, result) == Substituted(sort, LiftedList(sort, list), Free(d), LiftedList(Interval, value))
  {
    var s, t, g := SetOf(list), SetOf(value), LiftDim;
    var right := Substituted(sort, LiftedList(sort, list), Free(d), LiftedList(Interval, value));
    RenamedHolds(sort, SetOf(result), g, Generic<Atom>(Top()));
    SubstitutedHolds(sort, LiftedList(sort, list), Free(d), LiftedList(Interval, value), Generic<Atom>(Top()));
    forall v: Point<Atom> | Admits(sort, v) ensures Holds(LiftedList(sort, result), v) <==> Holds(right, v) {
      RenamedHolds(sort, SetOf(result), g, v);
      SubstitutedHolds(sort, s, d, t, Pulled(v, g));
      SubstitutedHolds(sort, LiftedList(sort, list), Free(d), LiftedList(Interval, value), v);
      RenamedHolds(sort, s, g, Moved(v, Free(d), LiftedList(Interval, value)));
      PulledLift(v, d, value);
    }
    Canonical(sort, LiftedList(sort, result), right);
  }

  lemma PulledLift(v: Point<Atom>, d: Dim, value: seq<DimClause>)
    ensures Pulled(Moved(v, Free(d), LiftedList(Interval, value)), LiftDim)
            == Moved(Pulled(v, LiftDim), d, SetOf(value))
  {
    RenamedHolds(Interval, SetOf(value), LiftDim, v);
    RenamedHolds(Interval, SetOf(value), LiftDim, Opposite(v));
    assert Pulled(Opposite(v), LiftDim) == Opposite(Pulled(v, LiftDim)) by {
      assert Pulled(Opposite(v), LiftDim).one == Opposite(Pulled(v, LiftDim)).one;
      assert Pulled(Opposite(v), LiftDim).zero == Opposite(Pulled(v, LiftDim)).zero;
    }
    var left, right := Pulled(Moved(v, Free(d), LiftedList(Interval, value)), LiftDim),
        Moved(Pulled(v, LiftDim), d, SetOf(value));
    assert left.one == right.one;
    assert left.zero == right.zero;
  }

  lemma LiftedGenerator(d: Dim)
    ensures LiftedList(Interval, [Clause({d}, {})]) == Dimension(d)
  {
    var c: DimClause := Clause({d}, {});
    assert SetOf([c]) == {c};
    assert RenamedClause(c, LiftDim) == Clause({Free(d)}, {}) by {
      assert RenamedClause(c, LiftDim).positive == {Free(d)};
    }
    assert RenamedClauses({c}, LiftDim) == {Clause({Free(d)}, {})};
    assert Reduce(Interval, {Clause({Free(d)}, {})}) == Dimension(d);
  }

  // ---- The graph of nodes -----------------------------------------------------------------

  /** Tube lists are made of tubes, as the kernel builds them. */
  ghost predicate ListShaped(nodes: seq<Syntax>, n: Syntax)
    requires n.b < |nodes|
  {
    BindsTubes(n.kind) || n.kind == TUBE ==> n.b == 0 || nodes[n.b].kind == TUBE
  }

  /** Children precede their parent, fill its arity at most, and a formula payload
      names a registered formula. */
  ghost predicate SyntaxOk(nodes: seq<Syntax>, formulas: seq<FormulaEntry>, n: Syntax, bound: nat)
    requires bound <= |nodes|
  {
    && n.a < bound && n.b < bound && n.c < bound
    && (Arity(n.kind) < 1 ==> n.a == 0) && (Arity(n.kind) < 2 ==> n.b == 0) && (Arity(n.kind) < 3 ==> n.c == 0)
    && (UsesFormula(n.kind) ==> 0 < n.payload < |formulas|)
    && ListShaped(nodes, n)
  }

  ghost function NodeForm(formulas: seq<FormulaEntry>, meaning: seq<Form>, n: Syntax): Form
    requires n.a < |meaning| && n.b < |meaning| && n.c < |meaning|
  {
    Node(n.kind, n.payload, TagOf(formulas, n.kind, n.payload), meaning[n.a], meaning[n.b], meaning[n.c])
  }

  ghost predicate FormulasOk(formulas: seq<FormulaEntry>) {
    |formulas| > 0 && forall i :: 0 <= i < |formulas| ==> ListNormal(formulas[i].sort, formulas[i].list)
  }

  /** Each handle has its node's form, and every such form stands alone. */
  ghost predicate HandleOk(nodes: seq<Syntax>, meaning: seq<Form>, formulas: seq<FormulaEntry>, h: nat)
    requires h < |nodes| == |meaning|
  {
    && SyntaxOk(nodes, formulas, nodes[h], h)
    && meaning[h] == NodeForm(formulas, meaning, nodes[h])
    && Standalone(meaning[h]) && (nodes[h].kind == TUBE ==> PlainList(meaning[h]))
  }

  ghost predicate GraphOk(nodes: seq<Syntax>, meaning: seq<Form>, formulas: seq<FormulaEntry>) {
    && 0 < |nodes| == |meaning| && meaning[0] == Absent && FormulasOk(formulas)
    && forall h :: 0 < h < |nodes| ==> HandleOk(nodes, meaning, formulas, h)
  }

  /** The depth that a node records when it is made: one more than its deepest child's. */
  function Depth(nodes: seq<Syntax>, h: nat): nat {
    if h == 0 || h >= |nodes| then 0 else
    var n := nodes[h];
    1 + Max(if n.a < h then Depth(nodes, n.a) else 0,
               Max(if n.b < h then Depth(nodes, n.b) else 0, if n.c < h then Depth(nodes, n.c) else 0))
  }


  // ---- Skeletons ---------------------------------------------------------------------------

  /** A term's nodes with their term names and indices, but no dimensions or formulas. */
  datatype Skeleton = NoBone | Bone(kind: Kind, name: nat, a: Skeleton, b: Skeleton, c: Skeleton)

  function Head(kind: Kind, payload: nat): nat {
    if TermBinder(kind) || kind == VAR || kind == BOUND then payload else 0
  }

  function BoneOf(bones: seq<Skeleton>, n: Syntax): Skeleton
    requires n.a < |bones| && n.b < |bones| && n.c < |bones|
  {
    Bone(n.kind, Head(n.kind, n.payload), bones[n.a], bones[n.b], bones[n.c])
  }

  ghost predicate BoneOk(nodes: seq<Syntax>, bones: seq<Skeleton>, h: nat)
    requires h < |nodes| == |bones|
  {
    nodes[h].a < h && nodes[h].b < h && nodes[h].c < h && bones[h] == BoneOf(bones, nodes[h])
  }

  /** `bones` has each handle's skeleton. */
  ghost predicate BonesOk(nodes: seq<Syntax>, bones: seq<Skeleton>) {
    && 0 < |nodes| == |bones| && bones[0] == NoBone
    && forall h :: 0 < h < |nodes| ==> BoneOk(nodes, bones, h)
  }

  lemma BonesAppend(nodes: seq<Syntax>, bones: seq<Skeleton>, n: Syntax)
    requires BonesOk(nodes, bones) && n.a < |nodes| && n.b < |nodes| && n.c < |nodes|
    ensures BonesOk(nodes + [n], bones + [BoneOf(bones, n)])
  {
    forall h | 0 < h < |nodes| + 1 ensures BoneOk(nodes + [n], bones + [BoneOf(bones, n)], h) {
      if h < |nodes| { assert BoneOk(nodes, bones, h); }
    }
  }

  /** A later state of the graph: everything made before is as it was. */
  ghost predicate Extends(nodes: seq<Syntax>, meaning: seq<Form>, formulas: seq<FormulaEntry>,
                          nodes': seq<Syntax>, meaning': seq<Form>, formulas': seq<FormulaEntry>) {
    nodes <= nodes' && meaning <= meaning' && formulas <= formulas'
  }

  lemma TagStable(formulas: seq<FormulaEntry>, formulas': seq<FormulaEntry>, n: Syntax)
    requires formulas <= formulas' && (UsesFormula(n.kind) ==> n.payload < |formulas|)
    ensures TagOf(formulas', n.kind, n.payload) == TagOf(formulas, n.kind, n.payload)
  {
  }

  lemma TagStandalone(formulas: seq<FormulaEntry>, n: Syntax)
    requires UsesFormula(n.kind) ==> n.payload < |formulas|
    ensures var tag := TagOf(formulas, n.kind, n.payload);
            (tag.Formula? ==> Normal(tag.sort, tag.clauses)) && TagClosed(tag, 0, 0) && (n.kind == VAR ==> tag.Name?)
  {
    if UsesFormula(n.kind) { LiftedNormal(formulas[n.payload].sort, formulas[n.payload].list); }
  }

  lemma FormStandalone(nodes: seq<Syntax>, meaning: seq<Form>, formulas: seq<FormulaEntry>, n: Syntax)
    requires GraphOk(nodes, meaning, formulas) && SyntaxOk(nodes, formulas, n, |nodes|)
    ensures Standalone(NodeForm(formulas, meaning, n)) && (n.kind == TUBE ==> PlainList(NodeForm(formulas, meaning, n)))
  {
    ChildStandalone(nodes, meaning, formulas, n.a);
    ChildStandalone(nodes, meaning, formulas, n.b);
    ChildStandalone(nodes, meaning, formulas, n.c);
    TagStandalone(formulas, n);
    NodeStandalone(n.kind, n.payload, TagOf(formulas, n.kind, n.payload), meaning[n.a], meaning[n.b], meaning[n.c]);
  }

  lemma HandleStable(nodes: seq<Syntax>, meaning: seq<Form>, formulas: seq<FormulaEntry>, n: Syntax, m: Form, h: nat)
    requires h < |nodes| == |meaning| && HandleOk(nodes, meaning, formulas, h)
    ensures HandleOk(nodes + [n], meaning + [m], formulas, h)
  {
  }

  /** A new node's form stands alone, and the others are as they were. */
  lemma NewHandleOk(nodes: seq<Syntax>, meaning: seq<Form>, formulas: seq<FormulaEntry>, n: Syntax)
    requires GraphOk(nodes, meaning, formulas) && SyntaxOk(nodes, formulas, n, |nodes|)
    ensures GraphOk(nodes + [n], meaning + [NodeForm(formulas, meaning, n)], formulas)
  {
    var m := NodeForm(formulas, meaning, n);
    FormStandalone(nodes, meaning, formulas, n);
    forall h | 0 < h < |nodes| + 1 ensures HandleOk(nodes + [n], meaning + [m], formulas, h) {
      if h < |nodes| { HandleStable(nodes, meaning, formulas, n, m, h); }
    }
  }

  lemma ChildStandalone(nodes: seq<Syntax>, meaning: seq<Form>, formulas: seq<FormulaEntry>, h: nat)
    requires GraphOk(nodes, meaning, formulas) && h < |nodes|
    ensures Standalone(meaning[h])
    ensures h == 0 || nodes[h].kind == TUBE ==> PlainList(meaning[h])
    ensures h != 0 ==> meaning[h].Form? && meaning[h].kind == nodes[h].kind
  {
    if h != 0 { assert HandleOk(nodes, meaning, formulas, h); }
  }

  /** Registering a formula leaves every form as it was. */
  lemma NewFormulaOk(nodes: seq<Syntax>, meaning: seq<Form>, formulas: seq<FormulaEntry>, e: FormulaEntry)
    requires GraphOk(nodes, meaning, formulas) && ListNormal(e.sort, e.list)
    ensures GraphOk(nodes, meaning, formulas + [e])
  {
    forall h | 0 < h < |nodes| ensures HandleOk(nodes, meaning, formulas + [e], h) {
      assert HandleOk(nodes, meaning, formulas, h);
      TagStable(formulas, formulas + [e], nodes[h]);
    }
  }

  // ---- Masks and the memo ---------------------------------------------------------------------

  /** The symbol filter keeps each name and context entry modulo its width; a clear bit
      proves absence. */
  ghost predicate FilterOk(symbols: set<nat>, m: Form) {
    forall x :: x in FreeTerms(m) || x in Entries(m) ==> x % FILTER in symbols
  }

  /** The dimension mask contains every free dimension, and nothing else once known. */
  ghost predicate MaskOk(mask: set<nat>, known: bool, m: Form) {
    FreeDims(m) <= mask && (known ==> FreeDims(m) == mask) && forall d :: d in mask ==> d < DIMENSIONS
  }

  ghost predicate MasksOk(meaning: seq<Form>, symbols: seq<set<nat>>, masks: seq<set<nat>>, known: seq<bool>) {
    && |symbols| == |masks| == |known| == |meaning|
    && forall h :: 0 < h < |meaning| ==> FilterOk(symbols[h], meaning[h]) && MaskOk(masks[h], known[h], meaning[h])
  }

  ghost predicate NamesBelow(meaning: seq<Form>, next: nat) {
    forall h, x :: 0 <= h < |meaning| && x in FreeTerms(meaning[h]) ==> x < next
  }

  datatype MemoEntry = MemoEntry(operation: nat, term: nat, name: nat, value: nat, result: nat)

  const MEMO_FREE := 1
  const MEMO_TERM := 3
  const MEMO_DIMENSION := 6

  /** What each operation's entries say; an empty slot has operation 0. Substitution for a
      dimension keeps every term name, so its entries say that too. */
  ghost predicate EntryOk(bones: seq<Skeleton>, meaning: seq<Form>, formulas: seq<FormulaEntry>, e: MemoEntry) {
    && (e.operation == MEMO_FREE ==>
          e.term < |meaning| && e.result == if e.name in FreeTerms(meaning[e.term]) then 1 else 0)
    && (e.operation == MEMO_TERM ==>
          e.term < |meaning| && e.value < |meaning| && e.result < |meaning|
          && meaning[e.result] == SubstTerm(meaning[e.term], e.name, meaning[e.value]))
    && (e.operation == MEMO_DIMENSION ==>
          e.term < |meaning| && e.value < |formulas| && e.result < |meaning| && formulas[e.value].sort == Interval
          && meaning[e.result] == SubstDim(meaning[e.term], e.name, Lifted(formulas[e.value]))
          && e.term < |bones| && e.result < |bones| && bones[e.result] == bones[e.term])
  }

  ghost predicate MemoOk(bones: seq<Skeleton>, meaning: seq<Form>, formulas: seq<FormulaEntry>, memo: seq<MemoEntry>) {
    forall i :: 0 <= i < |memo| ==> EntryOk(bones, meaning, formulas, memo[i])
  }

  lemma MemoStable(bones: seq<Skeleton>, meaning: seq<Form>, formulas: seq<FormulaEntry>,
                   bones': seq<Skeleton>, meaning': seq<Form>, formulas': seq<FormulaEntry>, memo: seq<MemoEntry>)
    requires MemoOk(bones, meaning, formulas, memo) && bones <= bones' && meaning <= meaning' && formulas <= formulas'
    ensures MemoOk(bones', meaning', formulas', memo)
  {
    forall i | 0 <= i < |memo| ensures EntryOk(bones', meaning', formulas', memo[i]) {
      assert EntryOk(bones, meaning, formulas, memo[i]);
    }
  }

  function ListNames(list: seq<DimClause>): set<nat> {
    if list == [] then {} else
    ListNames(list[..|list| - 1]) + list[|list| - 1].positive + list[|list| - 1].negative
  }

  lemma {:induction false} ListNamesMention(list: seq<DimClause>, d: nat)
    ensures d in ListNames(list) <==> d < DIMENSIONS && Mentions(SetOf(list), d as Dim)
  {
    if list != [] {
      var last := |list| - 1;
      ListNamesMention(list[..last], d);
      assert SetOf(list) == SetOf(list[..last]) + {list[last]};
    }
  }

  /** The names in a formula's mask are the dimensions of its form. */
  lemma ListNamesExact(sort: Sort, list: seq<DimClause>)
    requires ListNormal(sort, list)
    ensures ListNames(list) == ClauseNames(LiftedList(sort, list))
  {
    forall d ensures d in ListNames(list) <==> d in ClauseNames(LiftedList(sort, list)) {
      ListNamesMention(list, d);
      LiftedMentions(sort, list, d);
    }
  }

  function FormulaNames(formulas: seq<FormulaEntry>, id: nat): set<nat> {
    if id < |formulas| then ListNames(formulas[id].list) else {}
  }

  /** The masks a new node takes from its payload and its children's current masks. */
  function NewSymbols(n: Syntax, symbols: seq<set<nat>>): set<nat>
    requires n.a < |symbols| && n.b < |symbols| && n.c < |symbols|
  {
    (if n.kind == VAR || n.kind == CONTEXT then {n.payload % FILTER} else {})
    + (if n.a == 0 then {} else symbols[n.a]) + (if n.b == 0 then {} else symbols[n.b])
        + (if n.c == 0 then {} else symbols[n.c])
  }

  function NewMask(n: Syntax, formulas: seq<FormulaEntry>, masks: seq<set<nat>>): set<nat>
    requires n.a < |masks| && n.b < |masks| && n.c < |masks|
  {
    (if UsesFormula(n.kind) then FormulaNames(formulas, n.payload) else {})
    + (if DimBinder(n.kind) && n.payload < DIMENSIONS then {n.payload} else {})
    + (if n.a == 0 then {} else masks[n.a]) + (if n.b == 0 then {} else masks[n.b])
        + (if n.c == 0 then {} else masks[n.c])
  }

  lemma {:induction false} ListDimsBound(m: Form, e: nat)
    ensures ListDims(m, e) <= FreeDims(m) <= ListDims(m, e) + {e}
  {
    if m.Form? { ListDimsBound(m.b, e); }
  }

  /** The free names of a node in the graph, from those of its children. */
  lemma NodeNames(nodes: seq<Syntax>, meaning: seq<Form>, formulas: seq<FormulaEntry>, n: Syntax)
    requires GraphOk(nodes, meaning, formulas) && SyntaxOk(nodes, formulas, n, |nodes|)
    ensures FreeTerms(NodeForm(formulas, meaning, n)) ==
            if n.kind == VAR then {n.payload} else
            FreeTerms(meaning[n.a])
            + (if TermBinder(n.kind) then FreeTerms(meaning[n.b]) - {n.payload} else FreeTerms(meaning[n.b]))
                + FreeTerms(meaning[n.c])
    ensures FreeDims(NodeForm(formulas, meaning, n)) ==
            (if UsesFormula(n.kind) then FormulaNames(formulas, n.payload) else {})
            + FirstDims(n.kind, n.payload, meaning[n.a]) + SecondDims(n.kind, n.payload, meaning[n.b])
                + FreeDims(meaning[n.c])
  {
    var tag := TagOf(formulas, n.kind, n.payload);
    ChildStandalone(nodes, meaning, formulas, n.a);
    ChildStandalone(nodes, meaning, formulas, n.b);
    ChildStandalone(nodes, meaning, formulas, n.c);
    NodeTerms(n.kind, n.payload, tag, meaning[n.a], meaning[n.b], meaning[n.c]);
    NodeDims(n.kind, n.payload, tag, meaning[n.a], meaning[n.b], meaning[n.c]);
    if UsesFormula(n.kind) { ListNamesExact(formulas[n.payload].sort, formulas[n.payload].list); }
  }

  /** The context entries of a node are its own and those of its children. */
  lemma NodeEntries(formulas: seq<FormulaEntry>, meaning: seq<Form>, n: Syntax)
    requires n.a < |meaning| && n.b < |meaning| && n.c < |meaning|
    ensures Entries(NodeForm(formulas, meaning, n))
            <= (if n.kind == CONTEXT then {n.payload} else {}) + Entries(meaning[n.a]) + Entries(meaning[n.b])
                + Entries(meaning[n.c])
  {
    var m := NodeForm(formulas, meaning, n);
    if n.kind != VAR {
      NodeIndices(n.kind, n.payload, TagOf(formulas, n.kind, n.payload), meaning[n.a], meaning[n.b], meaning[n.c]);
      SameEntries(m.a, meaning[n.a]);
      SameEntries(m.b, meaning[n.b]);
      SameEntries(m.c, meaning[n.c]);
    }
  }

  /** What a child's masks promise; the empty handle promises all. */
  ghost predicate ChildMasked(meaning: seq<Form>, symbols: seq<set<nat>>, masks: seq<set<nat>>, h: nat)
    requires h < |meaning| == |symbols| == |masks|
  {
    && FreeDims(meaning[h]) <= (if h == 0 then {} else masks[h])
    && (forall x :: x in FreeTerms(meaning[h]) || x in Entries(meaning[h]) ==> h != 0 && x % FILTER in symbols[h])
    && (h != 0 ==> forall d :: d in masks[h] ==> d < DIMENSIONS)
  }

  lemma ChildMasks(meaning: seq<Form>, symbols: seq<set<nat>>, masks: seq<set<nat>>, known: seq<bool>, h: nat)
    requires MasksOk(meaning, symbols, masks, known) && h < |meaning| && meaning[0] == Absent
    ensures ChildMasked(meaning, symbols, masks, h)
  {
    if h != 0 { assert FilterOk(symbols[h], meaning[h]) && MaskOk(masks[h], known[h], meaning[h]); }
  }

  lemma FilterFrom(meaning: seq<Form>, symbols: seq<set<nat>>, masks: seq<set<nat>>, n: Syntax, m: Form)
    requires n.a < |meaning| == |symbols| == |masks| && n.b < |meaning| && n.c < |meaning|
    requires ChildMasked(meaning, symbols, masks, n.a) && ChildMasked(meaning, symbols, masks, n.b)
    requires ChildMasked(meaning, symbols, masks, n.c)
    requires FreeTerms(m) <= (if n.kind == VAR then {n.payload} else {}) + FreeTerms(meaning[n.a])
             + FreeTerms(meaning[n.b]) + FreeTerms(meaning[n.c])
    requires Entries(m) <= (if n.kind == CONTEXT then {n.payload} else {}) + Entries(meaning[n.a])
             + Entries(meaning[n.b]) + Entries(meaning[n.c])
    ensures FilterOk(NewSymbols(n, symbols), m)
  {
  }

  lemma MaskFrom(meaning: seq<Form>, formulas: seq<FormulaEntry>, symbols: seq<set<nat>>, masks: seq<set<nat>>,
                 n: Syntax, m: Form)
    requires n.a < |meaning| == |symbols| == |masks| && n.b < |meaning| && n.c < |meaning|
    requires ChildMasked(meaning, symbols, masks, n.a) && ChildMasked(meaning, symbols, masks, n.b)
    requires ChildMasked(meaning, symbols, masks, n.c)
    requires FreeDims(m) <= (if UsesFormula(n.kind) then FormulaNames(formulas, n.payload) else {})
                            + FreeDims(meaning[n.a]) + FreeDims(meaning[n.b]) + FreeDims(meaning[n.c])
    ensures MaskOk(NewMask(n, formulas, masks), false, m)
  {
    forall d | d in FormulaNames(formulas, n.payload) ensures d < DIMENSIONS {
      ListNamesMention(formulas[n.payload].list, d);
    }
  }

  /** A new node's masks are conservative, whatever has been refined before. */
  lemma NewMasksOk(nodes: seq<Syntax>, meaning: seq<Form>, formulas: seq<FormulaEntry>, n: Syntax,
                   symbols: seq<set<nat>>, masks: seq<set<nat>>, known: seq<bool>)
    requires GraphOk(nodes, meaning, formulas) && SyntaxOk(nodes, formulas, n, |nodes|)
    requires MasksOk(meaning, symbols, masks, known)
    ensures FilterOk(NewSymbols(n, symbols), NodeForm(formulas, meaning, n))
    ensures MaskOk(NewMask(n, formulas, masks), false, NodeForm(formulas, meaning, n))
  {
    var m := NodeForm(formulas, meaning, n);
    NodeNames(nodes, meaning, formulas, n);
    NodeEntries(formulas, meaning, n);
    ListDimsBound(meaning[n.b], n.payload);
    ChildMasks(meaning, symbols, masks, known, n.a);
    ChildMasks(meaning, symbols, masks, known, n.b);
    ChildMasks(meaning, symbols, masks, known, n.c);
    FilterFrom(meaning, symbols, masks, n, m);
    MaskFrom(meaning, formulas, symbols, masks, n, m);
  }

  lemma MasksAppend(meaning: seq<Form>, symbols: seq<set<nat>>, masks: seq<set<nat>>, known: seq<bool>, m: Form,
                    filter: set<nat>, mask: set<nat>)
    requires MasksOk(meaning, symbols, masks, known) && FilterOk(filter, m) && MaskOk(mask, false, m)
    ensures MasksOk(meaning + [m], symbols + [filter], masks + [mask], known + [false])
  {
  }

  /** The supply stays above every name when it passes a new node's own. */
  lemma NamesAppend(nodes: seq<Syntax>, meaning: seq<Form>, formulas: seq<FormulaEntry>, n: Syntax, next: nat)
    requires GraphOk(nodes, meaning, formulas) && SyntaxOk(nodes, formulas, n, |nodes|) && NamesBelow(meaning, next)
    ensures var next' := if (n.kind == VAR || TermBinder(n.kind)) && n.payload >= next then n.payload + 1 else next;
            NamesBelow(meaning + [NodeForm(formulas, meaning, n)], next')
  {
    NodeNames(nodes, meaning, formulas, n);
  }
}
