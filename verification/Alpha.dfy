/** term_conversion.c: comparison up to bound names, as one loop over explicit frames.
    Chains of binders are numbered, so that equal chains share a number; a scope that
    renames nothing, or nothing that occurs, is dropped; completed answers are kept in a
    memo that loses entries to collisions. */
module Alpha {
  import opened Lattice
  import opened Nameless
  import opened FreeNames
  import opened Formulas
  import opened TermStore
  import opened Store
  import opened Scans
  import opened Views
  import opened Scopes
  import F = Frames

  const SCOPE_LIMIT := 0xffffffffffffffff
  const SHALLOW := 8
  const FRAME_LIMIT := 16384

  // The predicates below that are compared to `true` are each proved as one fact.

  // ---- The memo and the scope table ---------------------------------------------------------

  datatype Folded = Unknown | Equal | Different

  datatype AlphaEntry = AlphaEntry(left: nat, right: nat, terms: nat, dims: nat, folded: Folded)

  datatype ScopeEntry = ScopeEntry(left: nat, right: nat, parent: nat, scope: nat)

  /** An entry's answer is right for its terms and its numbered scopes. */
  ghost predicate AlphaOk(meaning: seq<Form>, chains: map<nat, seq<Pair>>, e: AlphaEntry) {
    e.folded != Unknown ==>
      && e.left < |meaning| && e.right < |meaning| && (e.terms == 0 || e.terms in chains)
      && (e.dims == 0 || e.dims in chains)
      && (e.folded == Equal <==> Same(meaning[e.left], meaning[e.right], Chain(chains, e.terms), Chain(chains, e.dims)))
  }

  ghost predicate AlphasOk(meaning: seq<Form>, chains: map<nat, seq<Pair>>, memo: seq<AlphaEntry>) {
    forall i :: 0 <= i < |memo| ==> AlphaOk(meaning, chains, memo[i])
  }

  ghost predicate ScopeEntryOk(chains: map<nat, seq<Pair>>, e: ScopeEntry) {
    e.scope != 0 ==>
      && e.scope in chains && (e.parent == 0 || e.parent in chains)
      && chains[e.scope] == Chain(chains, e.parent) + [Pair(e.left, e.right)]
  }

  ghost predicate ScopeEntriesOk(chains: map<nat, seq<Pair>>, scopes: seq<ScopeEntry>) {
    forall i :: 0 <= i < |scopes| ==> ScopeEntryOk(chains, scopes[i])
  }

  ghost predicate ChainsGrow(chains: map<nat, seq<Pair>>, chains': map<nat, seq<Pair>>) {
    true == (chains.Keys <= chains'.Keys && 0 !in chains' && forall id :: id in chains ==> chains'[id] == chains[id])
  }

  lemma TablesGrow(meaning: seq<Form>, meaning': seq<Form>, chains: map<nat, seq<Pair>>, chains': map<nat, seq<Pair>>,
                   memo: seq<AlphaEntry>, scopes: seq<ScopeEntry>)
    requires AlphasOk(meaning, chains, memo) && ScopeEntriesOk(chains, scopes) && meaning <= meaning'
    requires ChainsGrow(chains, chains')
    ensures AlphasOk(meaning', chains', memo) && ScopeEntriesOk(chains', scopes)
  {
    forall i | 0 <= i < |memo| ensures AlphaOk(meaning', chains', memo[i]) { assert AlphaOk(meaning, chains, memo[i]); }
    forall i | 0 <= i < |scopes| ensures ScopeEntryOk(chains', scopes[i]) { assert ScopeEntryOk(chains, scopes[i]); }
  }

  // ---- Frames ------------------------------------------------------------------------------

  /** A comparison of two terms, or of two tube lists whose bodies are under `inner`. */
  datatype AlphaFrame = AlphaFrame(
    a: nat, b: nat, terms: Scope, dims: Scope, inner: Scope, left: Syntax, right: Syntax, binding: Scope,
    termScope: nat, dimScope: nat, next: nat, tubes: bool, waiting: bool, cache: bool)

  function Asked(a: nat, b: nat, terms: Scope, dims: Scope): AlphaFrame {
    var none := Syntax(LEAF, 0, 0, 0, 0);
    AlphaFrame(a, b, terms, dims, Unscoped, none, none, Unscoped, 0, 0, 0, false, false, false)
  }

  ghost predicate AskedOk(w: F.World, chains: map<nat, seq<Pair>>, f: AlphaFrame) {
    true ==
      (f.a < |w.nodes| == |w.meaning| && f.b < |w.nodes|
       && ScopeOk(chains, f.terms) && ScopeOk(chains, f.dims) && ScopeOk(chains, f.inner)
       && (f.tubes ==> (f.a == 0 || w.nodes[f.a].kind == TUBE) && (f.b == 0 || w.nodes[f.b].kind == TUBE)))
  }

  /** What a frame must answer. */
  ghost predicate Goal(w: F.World, f: AlphaFrame) {
    && f.a < |w.meaning| && f.b < |w.meaning|
    && if f.tubes then TubesSame(w.meaning[f.a], w.meaning[f.b], Env(f.terms), Env(f.dims), Env(f.inner))
    else Same(w.meaning[f.a], w.meaning[f.b], Env(f.terms), Env(f.dims))
  }

  /** How many children are compared. A path application's annotation is not. */
  function Compared(f: AlphaFrame): nat {
    if f.tubes then 2 else if f.left.kind == PAPP then 1 else Arity(f.left.kind)
  }

  function ChildOf(f: AlphaFrame, i: nat): AlphaFrame
    requires i < 3
  {
    var child := Asked(Child(f.left, i), Child(f.right, i), f.terms, f.dims);
    var kind := f.left.kind;
    if f.tubes then
      if i == 0 then child.(dims := f.inner) else child.(tubes := true, inner := f.inner)
    else if TermBinder(kind) then
      if i == 1 then child.(terms := f.binding) else child
    else if DimBinder(kind) then
      if (i == 0 && kind != HCOMP) || (i == 1 && kind == PLAM) then child.(dims := f.binding)
      else if i == 1 && (kind == COMP || kind == HCOMP) then child.(tubes := true, inner := f.binding)
      else child
    else child
  }

  /** The memo's key stands for the frame's own comparison. */
  ghost predicate KeyOk(w: F.World, chains: map<nat, seq<Pair>>, f: AlphaFrame)
    requires f.a < |w.meaning| && f.b < |w.meaning|
  {
    true == (f.cache ==>
      && !f.tubes && (f.termScope == 0 || f.termScope in chains) && (f.dimScope == 0 || f.dimScope in chains)
      && (Goal(w, f) <==> Same(w.meaning[f.a], w.meaning[f.b], Chain(chains, f.termScope), Chain(chains, f.dimScope))))
  }

  /** Two nodes whose payloads agree, with the scope of their binders. */
  ghost predicate Started(w: F.World, chains: map<nat, seq<Pair>>, f: AlphaFrame) {
    true ==
      (AskedOk(w, chains, f) && 0 < f.a && 0 < f.b && f.left == w.nodes[f.a] && f.right == w.nodes[f.b]
       && f.left.kind == f.right.kind && f.left.kind != VAR && ScopeOk(chains, f.binding)
       && (f.tubes ==> f.left.kind == TUBE)
       && (!f.tubes && TermBinder(f.left.kind) ==>
             Env(f.binding) == Env(f.terms) + [Pair(f.left.payload, f.right.payload)])
       && (!f.tubes && DimBinder(f.left.kind) ==>
             Env(f.binding) == Env(f.dims) + [Pair(f.left.payload, f.right.payload)])
       && TagsSame(f.left.kind, TagOf(w.formulas, f.left.kind, f.left.payload),
                   TagOf(w.formulas, f.right.kind, f.right.payload), Env(f.terms), Env(f.dims))
       && KeyOk(w, chains, f))
  }

  /** The nodes agree in kind and payload, and have children to compare. */
  ghost predicate NodesAgree(w: F.World, f: AlphaFrame) {
    && f.a < |w.nodes| && f.b < |w.nodes|
    && var l, r := w.nodes[f.a], w.nodes[f.b];
       && l.kind == r.kind && Arity(l.kind) > 0
       && TagsSame(l.kind, TagOf(w.formulas, l.kind, l.payload), TagOf(w.formulas, r.kind, r.payload), Env(f.terms),
                   Env(f.dims))
  }

  lemma BeginOk(w: F.World, was: map<nat, seq<Pair>>, chains: map<nat, seq<Pair>>, f: AlphaFrame, binding: Scope)
    requires AskedOk(w, was, f) && !f.tubes && 0 < f.a && 0 < f.b && KeyOk(w, was, f) && NodesAgree(w, f)
    requires ChainsGrow(was, chains) && ScopeOk(chains, binding)
    requires var l, r := w.nodes[f.a], w.nodes[f.b];
             && (TermBinder(l.kind) ==> Env(binding) == Env(f.terms) + [Pair(l.payload, r.payload)])
             && (DimBinder(l.kind) ==> Env(binding) == Env(f.dims) + [Pair(l.payload, r.payload)])
    ensures var g := f.(left := w.nodes[f.a], right := w.nodes[f.b], binding := binding);
            Started(w, chains, g) && Goal(w, g) == Goal(w, f)
  {
    ScopeGrows(was, chains, f.terms);
    ScopeGrows(was, chains, f.dims);
    ScopeGrows(was, chains, f.inner);
    var g := f.(left := w.nodes[f.a], right := w.nodes[f.b], binding := binding);
    assert Goal(w, g) == Goal(w, f);
    if f.cache {
      assert Chain(chains, f.termScope) == Chain(was, f.termScope)
             && Chain(chains, f.dimScope) == Chain(was, f.dimScope);
    }
  }

  lemma AbsentSame(w: F.World, f: AlphaFrame)
    requires F.WorldOk(w) && f.a < |w.nodes| && f.b < |w.nodes| && !f.tubes && (f.a == 0 || f.b == 0)
    ensures Goal(w, f) == (f.a == f.b)
  {
    ChildStandalone(w.nodes, w.meaning, w.formulas, f.a);
    ChildStandalone(w.nodes, w.meaning, w.formulas, f.b);
  }

  /** Leaves are the same by their payloads, and variables by what they resolve to. */
  lemma LeavesSame(w: F.World, f: AlphaFrame)
    requires F.WorldOk(w) && 0 < f.a < |w.nodes| && 0 < f.b < |w.nodes| && !f.tubes
    requires w.nodes[f.a].kind == w.nodes[f.b].kind && Arity(w.nodes[f.a].kind) == 0
    ensures var l, r := w.nodes[f.a], w.nodes[f.b];
            Goal(w, f) == if l.kind == VAR then SameName(l.payload, r.payload, f.terms) else l.payload == r.payload
  {
    F.TermNodeOk(w, f.a);
    F.TermNodeOk(w, f.b);
    var l, r := w.nodes[f.a], w.nodes[f.b];
    assert w.meaning[l.a] == Absent && w.meaning[l.b] == Absent && w.meaning[l.c] == Absent;
    assert w.meaning[r.a] == Absent && w.meaning[r.b] == Absent && w.meaning[r.c] == Absent;
    SameNameRelated(l.payload, r.payload, f.terms);
    LeafViews(l.kind, l.payload, r.payload, TagOf(w.formulas, l.kind, l.payload), TagOf(w.formulas, r.kind, r.payload),
              Env(f.terms), Env(f.dims));
  }

  lemma TagsDiffer(w: F.World, f: AlphaFrame)
    requires F.WorldOk(w) && 0 < f.a < |w.nodes| && 0 < f.b < |w.nodes| && !f.tubes
    requires w.nodes[f.a].kind == w.nodes[f.b].kind
    requires var l, r := w.nodes[f.a], w.nodes[f.b];
             !TagsSame(l.kind, TagOf(w.formulas, l.kind, l.payload), TagOf(w.formulas, r.kind, r.payload), Env(f.terms),
                       Env(f.dims))
    ensures !Goal(w, f)
  {
    F.TermNodeOk(w, f.a);
    F.TermNodeOk(w, f.b);
  }

  /** The end of a tube list is the same as an end only. */
  lemma ListEnds(w: F.World, chains: map<nat, seq<Pair>>, f: AlphaFrame)
    requires F.WorldOk(w) && AskedOk(w, chains, f) && f.tubes && (f.a == 0 || f.b == 0)
    ensures Goal(w, f) == (f.a == f.b)
  {
    ChildStandalone(w.nodes, w.meaning, w.formulas, f.a);
    ChildStandalone(w.nodes, w.meaning, w.formulas, f.b);
  }

  ghost predicate FacesAgree(w: F.World, f: AlphaFrame)
    requires f.a < |w.nodes| && f.b < |w.nodes|
  {
    TagsSame(TUBE, TagOf(w.formulas, TUBE, w.nodes[f.a].payload), TagOf(w.formulas, TUBE, w.nodes[f.b].payload),
             Env(f.terms), Env(f.dims))
  }

  lemma FacesDiffer(w: F.World, chains: map<nat, seq<Pair>>, f: AlphaFrame)
    requires F.WorldOk(w) && AskedOk(w, chains, f) && f.tubes && 0 < f.a && 0 < f.b && !FacesAgree(w, f)
    ensures !Goal(w, f)
  {
    F.TermNodeOk(w, f.a);
    F.TermNodeOk(w, f.b);
    var l, r := w.nodes[f.a], w.nodes[f.b];
    assert w.meaning[l.c] == Absent && w.meaning[r.c] == Absent;
    TubeSame(l.payload, r.payload, TagOf(w.formulas, TUBE, l.payload), TagOf(w.formulas, TUBE, r.payload),
             w.meaning[l.a], w.meaning[l.b], w.meaning[r.a], w.meaning[r.b], Env(f.terms), Env(f.dims), Env(f.inner));
  }

  lemma TubesStart(w: F.World, chains: map<nat, seq<Pair>>, f: AlphaFrame)
    requires F.WorldOk(w) && AskedOk(w, chains, f) && f.tubes && 0 < f.a && 0 < f.b && FacesAgree(w, f) && !f.cache
    ensures var g := f.(left := w.nodes[f.a], right := w.nodes[f.b], binding := Unscoped);
            Started(w, chains, g) && Goal(w, g) == Goal(w, f)
  {
  }

  ghost predicate ChildSame(w: F.World, f: AlphaFrame, i: nat)
    requires i < 3
  {
    Goal(w, ChildOf(f, i))
  }

  /** The first children are the same. */
  ghost predicate SameBefore(w: F.World, f: AlphaFrame, n: nat) {
    forall i: nat :: i < n && i < 3 ==> ChildSame(w, f, i)
  }

  lemma StartedChildren(w: F.World, chains: map<nat, seq<Pair>>, f: AlphaFrame)
    requires F.WorldOk(w) && Started(w, chains, f)
    ensures SyntaxOk(w.nodes, w.formulas, f.left, f.a) && SyntaxOk(w.nodes, w.formulas, f.right, f.b)
  {
    F.TermNodeOk(w, f.a);
    F.TermNodeOk(w, f.b);
  }

  /** The answer is that of all compared children. */
  lemma GoalSplits(w: F.World, chains: map<nat, seq<Pair>>, f: AlphaFrame)
    requires F.WorldOk(w) && Started(w, chains, f)
    ensures SyntaxOk(w.nodes, w.formulas, f.left, f.a) && SyntaxOk(w.nodes, w.formulas, f.right, f.b)
    ensures Goal(w, f) <==> SameBefore(w, f, Compared(f))
  {
    StartedChildren(w, chains, f);
    if f.tubes {
      TubesSplit(w, chains, f);
    } else {
      NodeSplit(w, chains, f);
      ChildrenSplit(w, chains, f);
    }
  }

  lemma NodeSplit(w: F.World, chains: map<nat, seq<Pair>>, f: AlphaFrame)
    requires F.WorldOk(w) && Started(w, chains, f) && !f.tubes
    requires SyntaxOk(w.nodes, w.formulas, f.left, f.a) && SyntaxOk(w.nodes, w.formulas, f.right, f.b)
    ensures var p := Pair(f.left.payload, f.right.payload);
            Goal(w, f) <==> && FirstSame(f.left.kind, p, w.meaning[f.left.a], w.meaning[f.right.a], Env(f.terms),
                                         Env(f.dims))
                            && SecondSame(f.left.kind, p, w.meaning[f.left.b], w.meaning[f.right.b], Env(f.terms),
                                          Env(f.dims))
                            && Same(w.meaning[f.left.c], w.meaning[f.right.c], Env(f.terms), Env(f.dims))
  {
    var l, r := f.left, f.right;
    F.TermNodeOk(w, f.a);
    F.TermNodeOk(w, f.b);
    ChildStandalone(w.nodes, w.meaning, w.formulas, l.a);
    ChildStandalone(w.nodes, w.meaning, w.formulas, l.b);
    ChildStandalone(w.nodes, w.meaning, w.formulas, r.a);
    ChildStandalone(w.nodes, w.meaning, w.formulas, r.b);
    NodeSame(l.kind, Pair(l.payload, r.payload), TagOf(w.formulas, l.kind, l.payload),
             TagOf(w.formulas, r.kind, r.payload),
             w.meaning[l.a], w.meaning[l.b], w.meaning[l.c], w.meaning[r.a], w.meaning[r.b], w.meaning[r.c],
                 Env(f.terms), Env(f.dims));
  }

  lemma TubesSplit(w: F.World, chains: map<nat, seq<Pair>>, f: AlphaFrame)
    requires F.WorldOk(w) && Started(w, chains, f) && f.tubes
    requires SyntaxOk(w.nodes, w.formulas, f.left, f.a) && SyntaxOk(w.nodes, w.formulas, f.right, f.b)
    ensures Goal(w, f) <==> SameBefore(w, f, 2)
  {
    F.TermNodeOk(w, f.a);
    F.TermNodeOk(w, f.b);
    var l, r := f.left, f.right;
    assert w.meaning[l.c] == Absent && w.meaning[r.c] == Absent;
    TubeSame(l.payload, r.payload, TagOf(w.formulas, TUBE, l.payload), TagOf(w.formulas, TUBE, r.payload),
             w.meaning[l.a], w.meaning[l.b], w.meaning[r.a], w.meaning[r.b], Env(f.terms), Env(f.dims), Env(f.inner));
    assert ChildSame(w, f, 0) <==> Same(w.meaning[l.a], w.meaning[r.a], Env(f.terms), Env(f.inner));
    assert ChildSame(w, f, 1) <==> TubesSame(w.meaning[l.b], w.meaning[r.b], Env(f.terms), Env(f.dims), Env(f.inner));
  }

  lemma ChildrenSplit(w: F.World, chains: map<nat, seq<Pair>>, f: AlphaFrame)
    requires F.WorldOk(w) && Started(w, chains, f) && !f.tubes
    requires SyntaxOk(w.nodes, w.formulas, f.left, f.a) && SyntaxOk(w.nodes, w.formulas, f.right, f.b)
    ensures SameBefore(w, f, Compared(f)) <==>
            (var p := Pair(f.left.payload, f.right.payload);
             && FirstSame(f.left.kind, p, w.meaning[f.left.a], w.meaning[f.right.a], Env(f.terms), Env(f.dims))
             && SecondSame(f.left.kind, p, w.meaning[f.left.b], w.meaning[f.right.b], Env(f.terms), Env(f.dims))
             && Same(w.meaning[f.left.c], w.meaning[f.right.c], Env(f.terms), Env(f.dims)))
  {
    var kind, p := f.left.kind, Pair(f.left.payload, f.right.payload);
    assert w.meaning[0] == Absent;
    assert Compared(f) > 0 ==>
             (ChildSame(w, f, 0) <==>
                FirstSame(kind, p, w.meaning[f.left.a], w.meaning[f.right.a], Env(f.terms), Env(f.dims)));
    assert Compared(f) > 1 ==>
             (ChildSame(w, f, 1) <==>
                SecondSame(kind, p, w.meaning[f.left.b], w.meaning[f.right.b], Env(f.terms), Env(f.dims)));
    assert Compared(f) > 2 ==>
             (ChildSame(w, f, 2) <==> Same(w.meaning[f.left.c], w.meaning[f.right.c], Env(f.terms), Env(f.dims)));
  }

  /** A child's own comparison may be asked. */
  lemma ChildAsked(w: F.World, chains: map<nat, seq<Pair>>, f: AlphaFrame, i: nat)
    requires F.WorldOk(w) && Started(w, chains, f) && i < Compared(f)
    ensures i < 3 && AskedOk(w, chains, ChildOf(f, i))
    ensures ChildOf(f, i).a < f.a && ChildOf(f, i).b < f.b
  {
    StartedChildren(w, chains, f);
  }

  // ---- The stack ---------------------------------------------------------------------------

  /** The children done so far are the same, and the awaited one's answer is known. */
  ghost predicate FrameOk(w: F.World, chains: map<nat, seq<Pair>>, f: AlphaFrame, answer: bool) {
    true ==
      (Started(w, chains, f) && f.next <= Compared(f) <= 3 && (f.waiting ==> f.next > 0)
       && SameBefore(w, f, if f.waiting then f.next - 1 else f.next)
       && (f.waiting ==> (answer <==> ChildSame(w, f, f.next - 1))))
  }

  ghost predicate Linked(w: F.World, chains: map<nat, seq<Pair>>, frames: seq<AlphaFrame>, i: nat, answer: bool)
    requires i < |frames|
  {
    true ==
    if i + 1 < |frames|
    then frames[i].waiting && AskedOk(w, chains, frames[i + 1]) && FrameOk(w, chains, frames[i], Goal(w, frames[i + 1]))
    else FrameOk(w, chains, frames[i], answer)
  }

  ghost predicate Running(w: F.World, chains: map<nat, seq<Pair>>, frames: seq<AlphaFrame>, goal: bool, answer: bool) {
    true ==
      ((forall i {:trigger Linked(w, chains, frames, i, answer)} :: 0 <= i < |frames| ==>
          Linked(w, chains, frames, i, answer))
       && (if frames == [] then answer == goal else AskedOk(w, chains, frames[0]) && Goal(w, frames[0]) == goal))
  }

  lemma StartedGrows(w: F.World, chains: map<nat, seq<Pair>>, chains': map<nat, seq<Pair>>, f: AlphaFrame)
    requires ChainsGrow(chains, chains')
    ensures AskedOk(w, chains, f) ==> AskedOk(w, chains', f)
    ensures Started(w, chains, f) ==> Started(w, chains', f)
  {
    if AskedOk(w, chains, f) {
      ScopeGrows(chains, chains', f.terms);
      ScopeGrows(chains, chains', f.dims);
      ScopeGrows(chains, chains', f.inner);
      if Started(w, chains, f) { ScopeGrows(chains, chains', f.binding); }
    }
  }

  lemma {:induction false} RunningGrows(w: F.World, chains: map<nat, seq<Pair>>, chains': map<nat, seq<Pair>>,
                                        frames: seq<AlphaFrame>, goal: bool, answer: bool)
    requires Running(w, chains, frames, goal, answer) && ChainsGrow(chains, chains')
    ensures Running(w, chains', frames, goal, answer)
  {
    forall i | 0 <= i < |frames| ensures Linked(w, chains', frames, i, answer) {
      assert Linked(w, chains, frames, i, answer);
      StartedGrows(w, chains, chains', frames[i]);
      if i + 1 < |frames| { StartedGrows(w, chains, chains', frames[i + 1]); }
    }
    if frames != [] { StartedGrows(w, chains, chains', frames[0]); }
  }

  lemma LinkedUnder(w: F.World, chains: map<nat, seq<Pair>>, frames: seq<AlphaFrame>, i: nat, was: bool, answer: bool)
    requires i + 1 < |frames| && Linked(w, chains, frames, i, was) && answer == Goal(w, frames[|frames| - 1])
    ensures Linked(w, chains, frames[..|frames| - 1], i, answer)
  {
    var rest := frames[..|frames| - 1];
    assert rest[i] == frames[i] && (i + 1 < |rest| ==> rest[i + 1] == frames[i + 1]);
  }

  lemma {:induction false} RunningPopped(w: F.World, chains: map<nat, seq<Pair>>, frames: seq<AlphaFrame>, goal: bool,
                                         was: bool, answer: bool)
    requires frames != [] && Running(w, chains, frames, goal, was) && answer == Goal(w, frames[|frames| - 1])
    ensures Running(w, chains, frames[..|frames| - 1], goal, answer)
  {
    var rest := frames[..|frames| - 1];
    forall i | 0 <= i < |rest| ensures Linked(w, chains, rest, i, answer) {
      assert Linked(w, chains, frames, i, was);
      LinkedUnder(w, chains, frames, i, was, answer);
    }
  }

  ghost predicate LinkedTo(w: F.World, chains: map<nat, seq<Pair>>, frames: seq<AlphaFrame>, n: nat, answer: bool)
    requires n <= |frames|
  {
    forall i {:trigger Linked(w, chains, frames, i, answer)} :: 0 <= i < n ==> Linked(w, chains, frames, i, answer)
  }

  /** A frame whose neighbour above stays, or asks the same. */
  lemma LinkedKept(w: F.World, chains: map<nat, seq<Pair>>, frames: seq<AlphaFrame>, i: nat, was: bool,
                   next: seq<AlphaFrame>, answer: bool)
    requires i + 1 < |frames| && i + 1 < |next| && next[i] == frames[i] && Linked(w, chains, frames, i, was)
    requires next[i + 1] == frames[i + 1]
    ensures Linked(w, chains, next, i, answer)
  {
  }

  lemma LinkedSame(w: F.World, chains: map<nat, seq<Pair>>, frames: seq<AlphaFrame>, i: nat, was: bool,
                   next: seq<AlphaFrame>, answer: bool)
    requires i + 1 < |frames| && i + 1 < |next| && next[i] == frames[i] && Linked(w, chains, frames, i, was)
    requires AskedOk(w, chains, next[i + 1]) && Goal(w, next[i + 1]) == Goal(w, frames[i + 1])
    ensures Linked(w, chains, next, i, answer)
  {
  }

  lemma TakenSame<T>(s: seq<T>, t: seq<T>, n: nat, i: nat)
    requires i < n <= |s| && n <= |t| && s[..n] == t[..n]
    ensures s[i] == t[i]
  {
    assert s[..n][i] == t[..n][i];
  }

  /** One frame below the top looks at most at the top's question. */
  lemma LinkedLower(w: F.World, chains: map<nat, seq<Pair>>, frames: seq<AlphaFrame>, i: nat, was: bool,
                    next: seq<AlphaFrame>, answer: bool)
    requires i + 1 < |frames| <= |next| && next[..|frames| - 1] == frames[..|frames| - 1]
    requires Linked(w, chains, frames, i, was)
    requires i + 2 == |frames| ==> AskedOk(w, chains, next[i + 1]) && Goal(w, next[i + 1]) == Goal(w, frames[i + 1])
    ensures Linked(w, chains, next, i, answer)
  {
    TakenSame(next, frames, |frames| - 1, i);
    if i + 2 < |frames| {
      TakenSame(next, frames, |frames| - 1, i + 1);
      LinkedKept(w, chains, frames, i, was, next, answer);
    } else {
      LinkedSame(w, chains, frames, i, was, next, answer);
    }
  }

  /** The frames below the top one look only at its question. */
  lemma {:induction false} LowerLinked(w: F.World, chains: map<nat, seq<Pair>>, frames: seq<AlphaFrame>, was: bool,
                                       next: seq<AlphaFrame>, answer: bool)
    requires frames != [] && LinkedTo(w, chains, frames, |frames|, was)
    requires |next| >= |frames| && next[..|frames| - 1] == frames[..|frames| - 1]
    requires AskedOk(w, chains, next[|frames| - 1])
    requires Goal(w, next[|frames| - 1]) == Goal(w, frames[|frames| - 1])
    ensures LinkedTo(w, chains, next, |frames| - 1, answer)
  {
    forall i | 0 <= i < |frames| - 1 ensures Linked(w, chains, next, i, answer) {
      assert Linked(w, chains, frames, i, was);
      LinkedLower(w, chains, frames, i, was, next, answer);
    }
  }

  lemma LinkedTop(w: F.World, chains: map<nat, seq<Pair>>, next: seq<AlphaFrame>, g: AlphaFrame, answer: bool)
    requires next != [] && next[|next| - 1] == g && FrameOk(w, chains, g, answer)
    ensures Linked(w, chains, next, |next| - 1, answer)
  {
  }

  lemma RunningReplaced(w: F.World, chains: map<nat, seq<Pair>>, frames: seq<AlphaFrame>, goal: bool, was: bool,
                        g: AlphaFrame, answer: bool)
    requires frames != [] && Running(w, chains, frames, goal, was) && AskedOk(w, chains, g)
    requires Goal(w, g) == Goal(w, frames[|frames| - 1]) && FrameOk(w, chains, g, answer)
    ensures Running(w, chains, frames[..|frames| - 1] + [g], goal, answer)
  {
    var top := |frames| - 1;
    var next := frames[..top] + [g];
    assert next[..top] == frames[..top];
    LowerLinked(w, chains, frames, was, next, answer);
    LinkedTop(w, chains, next, g, answer);
  }

  /** The top frame's answer is a new frame's. */
  lemma {:induction false} RunningPushed(w: F.World, chains: map<nat, seq<Pair>>, frames: seq<AlphaFrame>, goal: bool,
                                         child: AlphaFrame, answer: bool)
    requires frames != [] && Running(w, chains, frames, goal, Goal(w, child)) && frames[|frames| - 1].waiting
    requires AskedOk(w, chains, child) && FrameOk(w, chains, child, answer)
    ensures Running(w, chains, frames + [child], goal, answer)
  {
    var next := frames + [child];
    forall i | 0 <= i < |next| ensures Linked(w, chains, next, i, answer) {
      if i < |frames| {
        assert Linked(w, chains, frames, i, Goal(w, child));
        LinkedOnto(w, chains, frames, i, child, answer);
      }
    }
  }

  lemma LinkedOnto(w: F.World, chains: map<nat, seq<Pair>>, frames: seq<AlphaFrame>, i: nat, child: AlphaFrame,
                   answer: bool)
    requires i < |frames| && Linked(w, chains, frames, i, Goal(w, child)) && frames[|frames| - 1].waiting
    requires AskedOk(w, chains, child)
    ensures Linked(w, chains, frames + [child], i, answer)
  {
  }

  /** A frame that will be pushed awaits nothing yet. */
  lemma FreshFrame(w: F.World, chains: map<nat, seq<Pair>>, f: AlphaFrame, answer: bool)
    requires F.WorldOk(w) && Started(w, chains, f) && f.next == 0 && !f.waiting
    ensures FrameOk(w, chains, f, answer)
  {
    StartedChildren(w, chains, f);
  }

  lemma Advanced(w: F.World, chains: map<nat, seq<Pair>>, f: AlphaFrame, g: AlphaFrame)
    requires g == f.(next := f.next + 1, waiting := true)
    ensures Goal(w, g) == Goal(w, f) && (Started(w, chains, f) ==> Started(w, chains, g))
    ensures forall i: nat :: i < 3 ==> ChildOf(g, i) == ChildOf(f, i) && ChildSame(w, g, i) == ChildSame(w, f, i)
  {
  }

  /** A frame moves to its next child. */
  /** A frame that asks its next child. */
  function Waiting(f: AlphaFrame): AlphaFrame { f.(next := f.next + 1, waiting := true) }

  lemma FrameAsks(w: F.World, chains: map<nat, seq<Pair>>, f: AlphaFrame, answer: bool)
    requires F.WorldOk(w) && FrameOk(w, chains, f, answer) && f.next < Compared(f) && (f.waiting ==> answer)
    ensures f.next < 3 && AskedOk(w, chains, ChildOf(f, f.next)) && AskedOk(w, chains, Waiting(f))
    ensures Goal(w, Waiting(f)) == Goal(w, f) && FrameOk(w, chains, Waiting(f), Goal(w, ChildOf(f, f.next)))
  {
    ChildAsked(w, chains, f, f.next);
    var g := f.(next := f.next + 1, waiting := true);
    Advanced(w, chains, f, g);
    forall i: nat | i < f.next ensures ChildSame(w, g, i) {
      assert ChildSame(w, g, i) == ChildSame(w, f, i);
    }
  }

  /** A frame is complete when a child differs or none is left. */
  lemma FrameCompletes(w: F.World, chains: map<nat, seq<Pair>>, f: AlphaFrame, answer: bool)
    requires F.WorldOk(w) && FrameOk(w, chains, f, answer)
    requires ((f.waiting && !answer) || (f.next == Compared(f) && (f.waiting ==> answer)))
    ensures Goal(w, f) == !(f.waiting && !answer)
  {
    GoalSplits(w, chains, f);
    if f.waiting && !answer { assert !ChildSame(w, f, f.next - 1); }
  }

  /** A new frame for tubes on the stack. */
  predicate FreshOn(lower: seq<AlphaFrame>, rest: seq<AlphaFrame>) {
    |rest| == |lower| + 1 && rest[..|lower|] == lower && rest[|lower|].tubes && rest[|lower|].next == 0
  }

  lemma {:induction false} VisitLighter(frames: seq<AlphaFrame>, lower: seq<AlphaFrame>, rest: seq<AlphaFrame>)
    requires frames != [] && (rest == lower || FreshOn(lower, rest))
    requires var f := frames[|frames| - 1];
             && f.next < 3 && ChildOf(f, f.next).tubes
             && lower == frames[..|frames| - 1] + [Waiting(f)]
    ensures AlphaWeight(rest) < AlphaWeight(frames)
  {
    var f := frames[|frames| - 1];
    var g := Waiting(f);
    WeightStep(frames, g, rest[|rest| - 1]);
    if rest != lower { assert rest == frames[..|frames| - 1] + [g, rest[|lower|]]; }
  }

  /** The top frame answers, and the one below takes its answer. */
  lemma Completes(w: F.World, chains: map<nat, seq<Pair>>, frames: seq<AlphaFrame>, goal: bool, answer: bool)
    requires F.WorldOk(w) && frames != [] && Running(w, chains, frames, goal, answer)
    requires var f := frames[|frames| - 1]; (f.waiting && !answer) || f.next == Compared(f)
    ensures var f := frames[|frames| - 1];
            var equal := !(f.waiting && !answer);
            f.a < |w.meaning| && f.b < |w.meaning| && KeyOk(w, chains, f) && Goal(w, f) == equal
                && Running(w, chains, frames[..|frames| - 1], goal, equal)
  {
    var f := frames[|frames| - 1];
    assert Linked(w, chains, frames, |frames| - 1, answer);
    FrameCompletes(w, chains, f, answer);
    RunningPopped(w, chains, frames, goal, answer, Goal(w, f));
  }

  /** The top frame of a running stack. */
  lemma RunningTop(w: F.World, chains: map<nat, seq<Pair>>, frames: seq<AlphaFrame>, goal: bool, answer: bool)
    requires frames != [] && Running(w, chains, frames, goal, answer)
    ensures var f := frames[|frames| - 1]; FrameOk(w, chains, f, answer) && f.next <= Compared(f) <= 3
  {
    assert Linked(w, chains, frames, |frames| - 1, answer);
  }

  lemma ChildFresh(f: AlphaFrame, i: nat)
    requires i < 3
    ensures ChildOf(f, i).next == 0 && !ChildOf(f, i).waiting && !ChildOf(f, i).cache && Waiting(f).waiting
  {
  }

  lemma Descends(w: F.World, chains: map<nat, seq<Pair>>, frames: seq<AlphaFrame>, rest: seq<AlphaFrame>,
                 child: AlphaFrame, goal: bool, answer: bool)
    requires F.WorldOk(w) && frames != [] && Running(w, chains, frames, goal, answer)
    requires var f := frames[|frames| - 1];
             && f.next != Compared(f) && (f.waiting ==> answer)
             && (f.next < 3 ==> child == ChildOf(f, f.next))
             && rest == frames[..|frames| - 1] + [f.(next := f.next + 1, waiting := true)]
    ensures frames[|frames| - 1].next < Compared(frames[|frames| - 1]) <= 3
    ensures AskedOk(w, chains, child) && Running(w, chains, rest, goal, Goal(w, child))
    ensures child.next == 0 && !child.waiting && !child.cache && |rest| == |frames| && rest[|rest| - 1].waiting
  {
    var f := frames[|frames| - 1];
    RunningTop(w, chains, frames, goal, answer);
    FrameAsks(w, chains, f, answer);
    ChildFresh(f, f.next);
    ghost var g, asked := Waiting(f), Goal(w, child);
    RunningReplaced(w, chains, frames, goal, answer, g, asked);
    assert rest == frames[..|frames| - 1] + [g];
  }

  lemma NextInRange(w: F.World, chains: map<nat, seq<Pair>>, frames: seq<AlphaFrame>, goal: bool, answer: bool)
    requires frames != [] && Running(w, chains, frames, goal, answer)
    requires frames[|frames| - 1].next != Compared(frames[|frames| - 1])
    ensures frames[|frames| - 1].next < 3
  {
    assert Linked(w, chains, frames, |frames| - 1, answer);
  }

  lemma DescendsTo(w: F.World, chains: map<nat, seq<Pair>>, frames: seq<AlphaFrame>, goal: bool, child: AlphaFrame,
                   c: AlphaFrame, answer: bool)
    requires F.WorldOk(w) && frames != [] && Running(w, chains, frames, goal, Goal(w, child))
    requires frames[|frames| - 1].waiting
    requires Started(w, chains, c) && Goal(w, c) == Goal(w, child) && c.next == 0 && !c.waiting
    ensures Running(w, chains, frames + [c], goal, answer)
  {
    FreshFrame(w, chains, c, answer);
    RunningPushed(w, chains, frames, goal, c, answer);
  }

  /** A child's comparison was answered, or has a frame; the table of scopes has grown. */
  lemma Visited(w: F.World, was: map<nat, seq<Pair>>, chains: map<nat, seq<Pair>>, lower: seq<AlphaFrame>, goal: bool,
                child: AlphaFrame, pushed: bool, c: AlphaFrame, equal: bool, answer: bool)
    requires F.WorldOk(w) && lower != [] && lower[|lower| - 1].waiting && Running(w, was, lower, goal, Goal(w, child))
    requires ChainsGrow(was, chains)
    requires !pushed ==> equal == Goal(w, child)
    requires pushed ==>
               && Started(w, chains, c) && Goal(w, c) == Goal(w, child) && c.next == 0 && !c.waiting
               && (child.tubes ==> c.tubes)
    ensures Running(w, chains, if pushed then lower + [c] else lower, goal, if pushed then answer else equal)
    ensures pushed && child.tubes ==> FreshOn(lower, lower + [c])
  {
    RunningGrows(w, was, chains, lower, goal, Goal(w, child));
    if pushed { DescendsTo(w, chains, lower, goal, child, c, answer); }
  }

  function AlphaWeight(frames: seq<AlphaFrame>): nat {
    if frames == [] then 0 else
    var f := frames[|frames| - 1];
    AlphaWeight(frames[..|frames| - 1]) + if (f.tubes && f.next == 0) || f.next > 3 then 1 else 2 * (5 - f.next)
  }

  lemma {:induction false} WeightStep(frames: seq<AlphaFrame>, g: AlphaFrame, child: AlphaFrame)
    requires frames != []
    ensures var f := frames[|frames| - 1];
            && AlphaWeight(frames[..|frames| - 1]) < AlphaWeight(frames)
            && (g.next == f.next + 1 <= 3 && !(f.tubes && f.next == 0) ==>
                  && AlphaWeight(frames[..|frames| - 1] + [g]) < AlphaWeight(frames)
                  && (child.tubes && child.next == 0 ==>
                        AlphaWeight(frames[..|frames| - 1] + [g, child]) < AlphaWeight(frames)))
  {
    var rest := frames[..|frames| - 1];
    assert (rest + [g])[..|rest|] == rest;
    assert (rest + [g, child])[..|rest| + 1] == rest + [g];
  }

  // ---- The comparison ------------------------------------------------------------------------

  ghost function WorldOf(k: Kernel): F.World
    reads k
  {
    F.World(k.nodes, k.meaning, k.formulas, k.bones)
  }

  lemma InMask(chains: map<nat, seq<Pair>>, s: Scope, i: nat, right: bool)
    requires ScopeOk(chains, s) && s.Scope? && i < |Env(s)|
    ensures Side(Env(s)[i], right) % FILTER in (if right then s.rightMask else s.leftMask)
  {
  }

  /** One link of a chain. */
  lemma EnvInside(s: Scope, t: Scope)
    requires t.Scope? && |Env(t)| <= |Env(s)| && Env(s)[..|Env(t)|] == Env(t)
    ensures |Env(t.previous)| == |Env(t)| - 1 && Env(s)[..|Env(t)| - 1] == Env(t.previous)
    ensures Env(s)[|Env(t)| - 1] == Pair(t.left, t.right)
  {
    var at := |Env(t)| - 1;
    assert Env(s)[at] == Env(t)[at] && Env(t)[..at] == Env(t.previous);
    assert Env(s)[..at] == Env(s)[..|Env(t)|][..at];
  }

  lemma Unmasked(name: nat, dims: set<nat>, mask: set<nat>, renamed: set<nat>)
    requires dims <= mask && (forall d :: d in dims ==> d < DIMENSIONS) && mask * renamed == {}
    requires name % FILTER in renamed
    ensures name !in dims
  {
    assert name % FILTER !in mask * renamed;
    if name < DIMENSIONS { assert name % FILTER == name; }
  }

  class Comparer {
    const k: Kernel
    const slot: (nat, nat, nat, nat) -> nat
    const scopeSlot: (nat, nat, nat) -> nat
    const memo: array<AlphaEntry>
    const scopes: array<ScopeEntry>
    var next: nat
    /** The chain that each number stands for, and the forms when the memo was last
        used: the kernel may since have made more. */
    ghost var chains: map<nat, seq<Pair>>
    ghost var seen: seq<Form>

    ghost predicate Tables() reads this, memo, scopes {
      && memo.Length > 0 && scopes.Length > 0 && ChainsOk(chains, next)
      && AlphasOk(seen, chains, memo[..]) && ScopeEntriesOk(chains, scopes[..])
    }

    ghost predicate Valid() reads this, memo, scopes, k, k.memo {
      true == (k.Valid() && Tables() && seen <= k.meaning)
    }

    constructor (k: Kernel, slot: (nat, nat, nat, nat) -> nat, scopeSlot: (nat, nat, nat) -> nat, size: nat)
      requires k.Valid() && size > 0
      ensures Valid() && this.k == k && fresh(memo) && fresh(scopes)
    {
      this.k, this.slot, this.scopeSlot := k, slot, scopeSlot;
      memo := new AlphaEntry[size](_ => AlphaEntry(0, 0, 0, 0, Unknown));
      scopes := new ScopeEntry[size](_ => ScopeEntry(0, 0, 0, 0));
      next, chains, seen := 0, map[], [];
    }

    /** The memo is cleared when handles may come to mean something else. Scopes are not:
        their chains are names alone. */
    method Clear()
      requires Tables()
      modifies `seen, memo
      ensures Tables() && seen == []
    {
      var i := 0;
      while i < memo.Length
        invariant i <= memo.Length && forall j :: 0 <= j < i ==> memo[j].folded == Unknown
        invariant ScopeEntriesOk(chains, scopes[..])
      {
        memo[i] := AlphaEntry(0, 0, 0, 0, Unknown);
        i := i + 1;
      }
      seen := [];
    }

    lemma NewScopeOk(scope: Scope, previous: Scope)
      requires ScopeOk(chains, previous) && scope.Scope? && scope.previous == previous
      requires scope.id in chains && chains[scope.id] == Env(previous) + [Pair(scope.left, scope.right)]
      requires scope.identity == (scope.left == scope.right && (previous.Unscoped? || previous.identity))
      requires scope.leftMask == (if previous.Unscoped? then {} else previous.leftMask) + {scope.left % FILTER}
      requires scope.rightMask == (if previous.Unscoped? then {} else previous.rightMask) + {scope.right % FILTER}
      ensures ScopeOk(chains, scope) && Env(scope) == Env(previous) + [Pair(scope.left, scope.right)]
    {
      var n := |Env(previous)|;
      assert Env(scope)[n] == Pair(scope.left, scope.right) && Env(scope)[..n] == Env(previous);
      if Identity(Env(scope)) {
        forall i | 0 <= i < n ensures Env(previous)[i].left == Env(previous)[i].right {
          assert Env(scope)[i] == Env(previous)[i];
        }
      }
    }

    /** A new number for a chain, kept in a slot of the table. */
    method Number(i: nat, entry: ScopeEntry, ghost chain: seq<Pair>, ghost previous: Scope) returns (id: nat)
      requires Valid() && ScopeOk(chains, previous) && i < scopes.Length && next < SCOPE_LIMIT
      requires entry.parent == IdOf(previous) && chain == Env(previous) + [Pair(entry.left, entry.right)]
      modifies `next, `chains, scopes
      ensures Valid() && ChainsGrow(old(chains), chains) && ScopeOk(chains, previous) && id in chains
      ensures chains[id] == chain
    {
      next := next + 1;
      id := next;
      ghost var was := chains;
      chains := chains[id := chain];
      TablesGrow(seen, seen, was, chains, memo[..], scopes[..]);
      ScopeGrows(was, chains, previous);
      ghost var before := scopes[..];
      scopes[i] := entry.(scope := id);
      assert scopes[..] == before[i := entry.(scope := id)];
    }

    /** The scope of one more binder: the number of its chain, if the table still has it,
        or a new one. */
    method Bind(left: nat, right: nat, previous: Scope) returns (scope: Scope)
      requires Valid() && ScopeOk(chains, previous)
      modifies `next, `chains, scopes, k`failed
      ensures Valid() && ChainsGrow(old(chains), chains) && (old(k.failed) ==> k.failed)
      ensures !k.failed ==> ScopeOk(chains, scope) && Env(scope) == Env(previous) + [Pair(left, right)]
    {
      var parent := IdOf(previous);
      var i := scopeSlot(parent, left, right) % scopes.Length;
      var entry := scopes[i];
      assert entry == scopes[..][i];
      var id := entry.scope;
      ghost var chain := Env(previous) + [Pair(left, right)];
      if entry.scope == 0 || entry.parent != parent || entry.left != left || entry.right != right {
        if next >= SCOPE_LIMIT {
          k.failed := true;
          return Unscoped;
        }
        id := Number(i, ScopeEntry(left, right, parent, 0), chain, previous);
      }
      scope := Scope(left, right, id, left == right && (previous.Unscoped? || previous.identity), previous,
                     (if previous.Unscoped? then {} else previous.leftMask) + {left % FILTER},
                     (if previous.Unscoped? then {} else previous.rightMask) + {right % FILTER});
      NewScopeOk(scope, previous);
    }

    /** No name of a chain from the `n`th link on is in a set, on one side. */
    ghost predicate NoneFrom(env: seq<Pair>, n: nat, right: bool, names: set<nat>) {
      forall i :: n <= i < |env| ==> Side(env[i], right) !in names
    }

    lemma NoneFiltered(m: Form, mask: set<nat>, s: Scope, right: bool)
      requires ScopeOk(chains, s) && s.Scope? && FilterOk(mask, m)
      requires mask * (if right then s.rightMask else s.leftMask) == {}
      ensures forall i :: 0 <= i < |Env(s)| ==> Side(Env(s)[i], right) !in FreeTerms(m)
    {
      forall i | 0 <= i < |Env(s)| ensures Side(Env(s)[i], right) !in FreeTerms(m) {
        InMask(chains, s, i, right);
        assert Side(Env(s)[i], right) % FILTER !in mask * (if right then s.rightMask else s.leftMask);
      }
    }

    /** Whether a name occurs: not if the filter lacks it. */
    method NameOccurs(term: nat, name: nat) returns (occurs: bool)
      requires k.Valid() && 0 < term < |k.nodes|
      modifies k`budget, k`failed, k.memo
      ensures k.Valid() && k.budget <= old(k.budget) && (old(k.failed) ==> k.failed)
      ensures !k.failed && !occurs ==> name !in FreeTerms(k.meaning[term])
    {
      assert FilterOk(k.symbols[term], k.meaning[term]);
      if name % FILTER !in k.symbols[term] { return false; }
      occurs := TermFree(k, term, name);
    }

    /** Whether a renamed term name occurs in a term, on one side. */
    method RenamedFree(term: nat, s: Scope, right: bool) returns (free: bool)
      requires k.Valid() && 0 < term < |k.nodes| && ScopeOk(chains, s) && s.Scope?
      modifies k`budget, k`failed, k.memo
      ensures k.Valid() && k.budget <= old(k.budget) && (old(k.failed) ==> k.failed)
      ensures !k.failed && !free ==> NoneFrom(Env(s), 0, right, FreeTerms(k.meaning[term]))
    {
      assert FilterOk(k.symbols[term], k.meaning[term]);
      if k.symbols[term] * (if right then s.rightMask else s.leftMask) == {} {
        NoneFiltered(k.meaning[term], k.symbols[term], s, right);
        return false;
      }
      free := ScopeOccurs(term, s, right);
    }

    /** The same, name by name. */
    method ScopeOccurs(term: nat, s: Scope, right: bool) returns (free: bool)
      requires k.Valid() && 0 < term < |k.nodes|
      modifies k`budget, k`failed, k.memo
      ensures k.Valid() && k.budget <= old(k.budget) && (old(k.failed) ==> k.failed)
      ensures !k.failed && !free ==> NoneFrom(Env(s), 0, right, FreeTerms(k.meaning[term]))
    {
      ghost var names := FreeTerms(k.meaning[term]);
      var t := s;
      free := false;
      while t.Scope? && !k.failed && !free
        invariant k.Valid() && k.budget <= old(k.budget) && (old(k.failed) ==> k.failed)
        invariant |Env(t)| <= |Env(s)| && Env(s)[..|Env(t)|] == Env(t)
        invariant !k.failed && !free ==> NoneFrom(Env(s), |Env(t)|, right, names)
        decreases t
      {
        EnvInside(s, t);
        free := NameOccurs(term, if right then t.right else t.left);
        t := t.previous;
      }
    }

    /** Whether a renamed dimension may occur in a term, on one side. */
    method RenamedDimsFree(term: nat, s: Scope, right: bool) returns (free: bool)
      requires k.Valid() && 0 < term < |k.nodes| && ScopeOk(chains, s) && s.Scope?
      modifies k`budget, k`failed, k`masks, k`known
      ensures k.Valid() && k.budget <= old(k.budget) && (old(k.failed) ==> k.failed)
      ensures !k.failed && !free ==> forall i :: 0 <= i < |Env(s)| ==>
                Side(Env(s)[i], right) !in FreeDims(k.meaning[term])
    {
      var renamed := if right then s.rightMask else s.leftMask;
      ghost var m := k.meaning[term];
      DimsNative(k.meaning, k.symbols, k.masks, k.known, term);
      assert MaskOk(k.masks[term], k.known[term], m);
      if k.masks[term] * renamed == {} {
        NoneRenamed(m, k.masks[term], s, right);
        return false;
      }
      var dims := FreeDimensions(k, term);
      if !k.failed && dims * renamed == {} { NoneRenamed(m, dims, s, right); }
      return dims * renamed != {};
    }

    lemma NoneRenamed(m: Form, mask: set<nat>, s: Scope, right: bool)
      requires ScopeOk(chains, s) && s.Scope? && FreeDims(m) <= mask && forall d :: d in FreeDims(m) ==> d < DIMENSIONS
      requires mask * (if right then s.rightMask else s.leftMask) == {}
      ensures forall i :: 0 <= i < |Env(s)| ==> Side(Env(s)[i], right) !in FreeDims(m)
    {
      forall i | 0 <= i < |Env(s)| ensures Side(Env(s)[i], right) !in FreeDims(m) {
        InMask(chains, s, i, right);
        Unmasked(Side(Env(s)[i], right), FreeDims(m), mask, if right then s.rightMask else s.leftMask);
      }
    }

    // ---- Entry checks ---------------------------------------------------------------------

    /** Whether no name that a scope renames occurs, on either side. */
    method TermsSpared(a: nat, b: nat, s: Scope) returns (spared: bool)
      requires k.Valid() && 0 < a < |k.nodes| && 0 < b < |k.nodes| && ScopeOk(chains, s) && s.Scope?
      modifies k`budget, k`failed, k.memo
      ensures k.Valid() && k.budget <= old(k.budget) && (old(k.failed) ==> k.failed)
      ensures !k.failed && spared ==> Droppable(Env(s), FreeTerms(k.meaning[a]), FreeTerms(k.meaning[b]))
    {
      var free := RenamedFree(a, s, false);
      if free || k.failed { return false; }
      free := RenamedFree(b, s, true);
      return !free;
    }

    method DimsSpared(a: nat, b: nat, s: Scope) returns (spared: bool)
      requires k.Valid() && 0 < a < |k.nodes| && 0 < b < |k.nodes| && ScopeOk(chains, s) && s.Scope?
      modifies k`budget, k`failed, k`masks, k`known
      ensures k.Valid() && k.budget <= old(k.budget) && (old(k.failed) ==> k.failed)
      ensures !k.failed && spared ==> Droppable(Env(s), FreeDims(k.meaning[a]), FreeDims(k.meaning[b]))
    {
      var free := RenamedDimsFree(a, s, false);
      if free || k.failed { return false; }
      free := RenamedDimsFree(b, s, true);
      return !free;
    }

    method PruneTerms(f: AlphaFrame) returns (terms: Scope)
      requires k.Valid() && AskedOk(WorldOf(k), chains, f) && !f.tubes && 0 < f.a && 0 < f.b
      modifies k`budget, k`failed, k.memo
      ensures k.Valid() && k.budget <= old(k.budget) && (old(k.failed) ==> k.failed)
      ensures !k.failed ==> ScopeOk(chains, terms) && Goal(WorldOf(k), f.(terms := terms)) == Goal(WorldOf(k), f)
    {
      terms := f.terms;
      if terms.Unscoped? || terms.identity { return; }
      var spared := TermsSpared(f.a, f.b, terms);
      if k.failed || !spared { return; }
      ChildStandalone(k.nodes, k.meaning, k.formulas, f.a);
      ChildStandalone(k.nodes, k.meaning, k.formulas, f.b);
      Dropped(k.meaning[f.a], k.meaning[f.b], Env(terms), Env(f.dims));
      terms := Unscoped;
    }

    method PruneDims(f: AlphaFrame) returns (dims: Scope)
      requires k.Valid() && AskedOk(WorldOf(k), chains, f) && !f.tubes && 0 < f.a && 0 < f.b
      modifies k`budget, k`failed, k`masks, k`known
      ensures k.Valid() && k.budget <= old(k.budget) && (old(k.failed) ==> k.failed)
      ensures !k.failed ==> ScopeOk(chains, dims) && Goal(WorldOf(k), f.(dims := dims)) == Goal(WorldOf(k), f)
    {
      dims := f.dims;
      if dims.Unscoped? || dims.identity { return; }
      var spared := DimsSpared(f.a, f.b, dims);
      if k.failed || !spared { return; }
      ChildStandalone(k.nodes, k.meaning, k.formulas, f.a);
      ChildStandalone(k.nodes, k.meaning, k.formulas, f.b);
      Dropped(k.meaning[f.a], k.meaning[f.b], Env(f.terms), Env(dims));
      dims := Unscoped;
    }

    /** Drops the scopes that rename nothing that occurs, in terms deep enough to gain. */
    method Prune(f: AlphaFrame) returns (terms: Scope, dims: Scope)
      requires k.Valid() && AskedOk(WorldOf(k), chains, f) && !f.tubes && 0 < f.a && 0 < f.b
      modifies k`budget, k`failed, k`masks, k`known, k.memo
      ensures k.Valid() && k.budget <= old(k.budget) && (old(k.failed) ==> k.failed)
      ensures !k.failed ==> ScopeOk(chains, terms) && ScopeOk(chains, dims)
                            && Goal(WorldOf(k), f.(terms := terms, dims := dims)) == Goal(WorldOf(k), f)
    {
      terms, dims := f.terms, f.dims;
      if Depth(k.nodes, f.a) < SHALLOW && Depth(k.nodes, f.b) < SHALLOW { return; }
      terms := PruneTerms(f);
      if k.failed { return; }
      dims := PruneDims(f.(terms := terms));
    }

    function KeyOf(s: Scope): nat { if s.Scope? && !s.identity then s.id else 0 }

    /** An identity scope renames nothing: its comparisons are filed under no scope. */
    lemma KeyOfOk(m: Form, n: Form, terms: Scope, dims: Scope)
      requires Standalone(m) && Standalone(n) && ScopeOk(chains, terms) && ScopeOk(chains, dims) && 0 !in chains
      ensures Same(m, n, Env(terms), Env(dims)) <==> Same(m, n, Chain(chains, KeyOf(terms)), Chain(chains, KeyOf(dims)))
    {
      Dropped(m, n, Env(terms), Env(dims));
      Dropped(m, n, [], Env(dims));
    }

    method Lookup(f: AlphaFrame) returns (found: bool, equal: bool)
      requires Valid() && f.a < |k.meaning| && f.b < |k.meaning|
      ensures found ==>
                (equal <==> Same(k.meaning[f.a], k.meaning[f.b], Chain(chains, f.termScope), Chain(chains, f.dimScope)))
    {
      var e := memo[slot(f.a, f.b, f.termScope, f.dimScope) % memo.Length];
      assert e == memo[..][slot(f.a, f.b, f.termScope, f.dimScope) % memo.Length];
      if e.left != f.a || e.right != f.b || e.terms != f.termScope || e.dims != f.dimScope || e.folded == Unknown {
        return false, false;
      }
      return true, e.folded == Equal;
    }

    /** Files a completed answer. A child may have taken the slot meanwhile. */
    method Completed(f: AlphaFrame, equal: bool)
      requires Valid()
      requires (!k.failed ==>
                  f.a < |k.meaning| && f.b < |k.meaning| && KeyOk(WorldOf(k), chains, f)
                      && (equal <==> Goal(WorldOf(k), f)))
      modifies memo, `seen
      ensures Valid()
    {
      if !f.cache || k.failed { return; }
      TablesGrow(seen, k.meaning, chains, chains, memo[..], scopes[..]);
      seen := k.meaning;
      ghost var was := memo[..];
      var i := slot(f.a, f.b, f.termScope, f.dimScope) % memo.Length;
      memo[i] := AlphaEntry(f.a, f.b, f.termScope, f.dimScope, if equal then Equal else Different);
      assert memo[..] == was[i := memo[i]];
    }

    /** The comparison of two formulas under a scope. */
    method FormulaEqual(kind: Kind, a: nat, b: nat, dims: Scope, ghost terms: seq<Pair>) returns (equal: bool)
      requires k.Valid() && a < |k.formulas| && b < |k.formulas| && UsesFormula(kind)
      ensures equal <==> TagsSame(kind, TagOf(k.formulas, kind, a), TagOf(k.formulas, kind, b), terms, Env(dims))
    {
      FormulasSame(k.formulas, kind, a, b, terms, dims);
      if a == b && dims.Unscoped? {
        SameFormula(k.formulas, kind, a, terms);
        return true;
      }
      if k.formulas[a].sort != k.formulas[b].sort { return false; }
      equal := ListEqual(k.formulas[a].list, k.formulas[b].list, dims);
    }

    lemma SameFormula(formulas: seq<FormulaEntry>, kind: Kind, a: nat, terms: seq<Pair>)
      requires a < |formulas| && UsesFormula(kind) && FormulasOk(formulas)
      ensures TagsSame(kind, TagOf(formulas, kind, a), TagOf(formulas, kind, a), terms, [])
    {
      LiftedNormal(formulas[a].sort, formulas[a].list);
      TagsAlike(kind, TagOf(formulas, kind, a), TagOf(formulas, kind, a));
    }

    /** Two tube lists: their ends, or their first faces. */
    method TubesReady(f: AlphaFrame) returns (ready: bool, g: AlphaFrame, equal: bool)
      requires Valid() && AskedOk(WorldOf(k), chains, f) && f.tubes && !f.cache && f.next == 0 && !f.waiting
      ensures !ready ==> equal == Goal(WorldOf(k), f) && g == f
      ensures ready ==>
                && Started(WorldOf(k), chains, g)
                && g == f.(left := k.nodes[f.a], right := k.nodes[f.b], binding := Unscoped)
      ensures ready ==> Goal(WorldOf(k), g) == Goal(WorldOf(k), f)
    {
      g := f;
      if f.a == 0 || f.b == 0 {
        ListEnds(WorldOf(k), chains, f);
        return false, g, f.a == f.b;
      }
      F.TermNodeOk(WorldOf(k), f.a);
      F.TermNodeOk(WorldOf(k), f.b);
      var l, r := k.nodes[f.a], k.nodes[f.b];
      equal := FormulaEqual(TUBE, l.payload, r.payload, f.dims, Env(f.terms));
      if !equal {
        FacesDiffer(WorldOf(k), chains, f);
        return false, g, false;
      }
      TubesStart(WorldOf(k), chains, f);
      return true, f.(left := l, right := r, binding := Unscoped), false;
    }

    /** What two nodes decide on their own, whatever their children. */
    method NodesReady(f: AlphaFrame) returns (done: bool, equal: bool)
      requires k.Valid() && AskedOk(WorldOf(k), chains, f) && !f.tubes && 0 < f.a && 0 < f.b
      ensures done ==> equal == Goal(WorldOf(k), f)
      ensures !done ==> NodesAgree(WorldOf(k), f)
    {
      var l, r := k.nodes[f.a], k.nodes[f.b];
      if l.kind != r.kind {
        ChildStandalone(k.nodes, k.meaning, k.formulas, f.a);
        ChildStandalone(k.nodes, k.meaning, k.formulas, f.b);
        KindsDiffer(k.meaning[f.a], k.meaning[f.b], Env(f.terms), Env(f.dims));
        return true, false;
      }
      if Arity(l.kind) == 0 {
        LeavesSame(WorldOf(k), f);
        return true, if l.kind == VAR then SameName(l.payload, r.payload, f.terms) else l.payload == r.payload;
      }
      if UsesFormula(l.kind) {
        F.TermNodeOk(WorldOf(k), f.a);
        F.TermNodeOk(WorldOf(k), f.b);
        equal := FormulaEqual(l.kind, l.payload, r.payload, f.dims, Env(f.terms));
        if !equal { TagsDiffer(WorldOf(k), f); }
        return !equal, false;
      }
      return false, false;
    }

    /** The comparison with the scopes that matter, and its key in the memo. */
    method Filed(f: AlphaFrame) returns (g: AlphaFrame)
      requires Valid() && AskedOk(WorldOf(k), chains, f) && !f.tubes && 0 < f.a && 0 < f.b
      modifies k`budget, k`failed, k`masks, k`known, k.memo
      ensures Valid() && k.budget <= old(k.budget) && (old(k.failed) ==> k.failed)
      ensures !k.failed ==>
                && g == f.(terms := g.terms, dims := g.dims, termScope := KeyOf(g.terms), dimScope := KeyOf(g.dims),
                           cache := true)
                && AskedOk(WorldOf(k), chains, g) && KeyOk(WorldOf(k), chains, g)
                && Goal(WorldOf(k), g) == Goal(WorldOf(k), f)
    {
      var terms, dims := Prune(f);
      g := f.(terms := terms, dims := dims, termScope := KeyOf(terms), dimScope := KeyOf(dims), cache := true);
      if k.failed { return; }
      ChildStandalone(k.nodes, k.meaning, k.formulas, f.a);
      ChildStandalone(k.nodes, k.meaning, k.formulas, f.b);
      KeyOfOk(k.meaning[f.a], k.meaning[f.b], terms, dims);
    }

    /** A comparison of two terms: answered by the memo, by identity or by the nodes
        themselves, or a frame for their children. */
    method TermsReady(f: AlphaFrame) returns (ready: bool, g: AlphaFrame, equal: bool)
      requires Valid() && !k.failed && AskedOk(WorldOf(k), chains, f) && !f.tubes && f.next == 0 && !f.waiting
      requires !f.cache
      modifies this, scopes, k`budget, k`failed, k`masks, k`known, k.memo
      ensures Valid() && k.budget <= old(k.budget) && ChainsGrow(old(chains), chains)
      ensures !k.failed ==>
                k.budget < old(k.budget) && g.a == f.a && g.b == f.b && Goal(WorldOf(k), g) == Goal(WorldOf(k), f)
      ensures !k.failed && !ready ==> equal == Goal(WorldOf(k), f) && KeyOk(WorldOf(k), chains, g)
      ensures !k.failed && ready ==> Started(WorldOf(k), chains, g) && g.next == 0 && !g.waiting
    {
      g, ready, equal := f, false, false;
      if f.a == 0 || f.b == 0 {
        var ok := k.Tick();
        AbsentSame(WorldOf(k), f);
        return false, f, f.a == f.b;
      }
      g := Filed(f);
      if k.failed { return; }
      ready, g, equal := Decided(g);
    }

    /** What the memo answers, or identity. A memoized answer is not filed again. */
    method Recalled(f: AlphaFrame) returns (known: bool, g: AlphaFrame, equal: bool)
      requires Valid() && !k.failed && AskedOk(WorldOf(k), chains, f) && !f.tubes && 0 < f.a && 0 < f.b
      requires KeyOk(WorldOf(k), chains, f) && f.cache
      modifies k`budget, k`failed
      ensures Valid() && k.budget <= old(k.budget)
      ensures g == f || g == f.(cache := false)
      ensures !k.failed ==> k.budget < old(k.budget)
      ensures !k.failed && known ==> equal == Goal(WorldOf(k), f) && KeyOk(WorldOf(k), chains, g)
      ensures !k.failed && !known ==> g == f
    {
      g, known, equal := f, false, false;
      var found, answer := Lookup(f);
      var ok := k.Tick();
      if !ok { return; }
      if found { return true, f.(cache := false), answer; }
      if f.a == f.b && (f.terms.Unscoped? || f.terms.identity) && (f.dims.Unscoped? || f.dims.identity) {
        SelfSame(f);
        return true, f, true;
      }
    }

    lemma SelfSame(f: AlphaFrame)
      requires k.Valid() && AskedOk(WorldOf(k), chains, f) && !f.tubes && f.a == f.b
      requires (f.terms.Unscoped? || f.terms.identity) && (f.dims.Unscoped? || f.dims.identity)
      ensures Goal(WorldOf(k), f)
    {
      ChildStandalone(k.nodes, k.meaning, k.formulas, f.a);
      SameItself(k.meaning[f.a], Env(f.terms), Env(f.dims));
    }

    /** A filed comparison that the memo, identity or the nodes decide, or a frame. */
    method Decided(f: AlphaFrame) returns (ready: bool, g: AlphaFrame, equal: bool)
      requires Valid() && !k.failed && AskedOk(WorldOf(k), chains, f) && !f.tubes && 0 < f.a && 0 < f.b && f.next == 0
      requires !f.waiting
      requires KeyOk(WorldOf(k), chains, f) && f.cache
      modifies `next, `chains, scopes, k`budget, k`failed
      ensures Valid() && k.budget <= old(k.budget) && ChainsGrow(old(chains), chains)
      ensures !k.failed ==>
                k.budget < old(k.budget) && g.a == f.a && g.b == f.b && Goal(WorldOf(k), g) == Goal(WorldOf(k), f)
      ensures !k.failed && !ready ==> equal == Goal(WorldOf(k), f) && KeyOk(WorldOf(k), chains, g)
      ensures !k.failed && ready ==> Started(WorldOf(k), chains, g) && g.next == 0 && !g.waiting
    {
      var known;
      known, g, equal := Recalled(f);
      ready := false;
      if known || k.failed { return; }
      var done;
      done, equal := NodesReady(f);
      if !done { ready, g := Begin(f); }
    }

    /** The frame of two nodes whose payloads agree, with its binders' scope. */
    method Begin(f: AlphaFrame) returns (ready: bool, g: AlphaFrame)
      requires Valid() && !k.failed && AskedOk(WorldOf(k), chains, f) && !f.tubes && 0 < f.a && 0 < f.b && f.next == 0
      requires !f.waiting
      requires KeyOk(WorldOf(k), chains, f) && NodesAgree(WorldOf(k), f)
      modifies `next, `chains, scopes, k`failed
      ensures Valid() && ChainsGrow(old(chains), chains)
      ensures ready == !k.failed
      ensures ready ==> Started(WorldOf(k), chains, g) && Goal(WorldOf(k), g) == Goal(WorldOf(k), f)
                        && g.a == f.a && g.b == f.b && g.next == 0 && !g.waiting
    {
      var l, r := k.nodes[f.a], k.nodes[f.b];
      ghost var was := chains;
      var binding := Unscoped;
      if TermBinder(l.kind) {
        binding := Bind(l.payload, r.payload, f.terms);
      } else if DimBinder(l.kind) {
        binding := Bind(l.payload, r.payload, f.dims);
      }
      g := f.(left := l, right := r, binding := binding);
      if k.failed { return false, g; }
      BeginOk(WorldOf(k), was, chains, f, binding);
      return true, g;
    }

    // ---- The loop -------------------------------------------------------------------------

    /** A child's comparison: answered and filed at once, or a frame to push. */
    method AskTerms(f: AlphaFrame) returns (pushed: bool, g: AlphaFrame, equal: bool)
      requires Valid() && !k.failed && AskedOk(WorldOf(k), chains, f) && !f.tubes && f.next == 0 && !f.waiting
      requires !f.cache
      modifies this, scopes, memo, k`budget, k`failed, k`masks, k`known, k.memo
      ensures Valid() && k.budget <= old(k.budget) && ChainsGrow(old(chains), chains)
      ensures !k.failed ==> k.budget < old(k.budget)
      ensures !k.failed && !pushed ==> equal == Goal(WorldOf(k), f)
      ensures !k.failed && pushed ==>
                && Started(WorldOf(k), chains, g) && Goal(WorldOf(k), g) == Goal(WorldOf(k), f) && g.next == 0
                && !g.waiting
    {
      pushed, g, equal := TermsReady(f);
      if k.failed || pushed { return; }
      Completed(g, equal);
    }

    method Ask(f: AlphaFrame, count: nat) returns (pushed: bool, g: AlphaFrame, equal: bool)
      requires Valid() && !k.failed && AskedOk(WorldOf(k), chains, f) && f.next == 0 && !f.waiting && !f.cache
      requires count <= FRAME_LIMIT
      modifies this, scopes, memo, k`budget, k`failed, k`masks, k`known, k.memo
      ensures Valid() && k.budget <= old(k.budget) && ChainsGrow(old(chains), chains)
      ensures !k.failed && !f.tubes ==> k.budget < old(k.budget)
      ensures !k.failed && !pushed ==> equal == Goal(WorldOf(k), f)
      ensures !k.failed && pushed ==> Started(WorldOf(k), chains, g) && Goal(WorldOf(k), g) == Goal(WorldOf(k), f)
                                      && g.next == 0 && !g.waiting && (f.tubes ==> g.tubes) && count < FRAME_LIMIT
    {
      if f.tubes {
        pushed, g, equal := TubesReady(f);
      } else {
        pushed, g, equal := AskTerms(f);
      }
      if pushed && count == FRAME_LIMIT { k.failed := true; }
    }

    /** One turn of the loop, for the top frame. */
    method Step(frames: seq<AlphaFrame>, ghost goal: bool, answer: bool) returns (rest: seq<AlphaFrame>, equal: bool)
      requires Valid() && !k.failed && 0 < |frames| <= FRAME_LIMIT && Running(WorldOf(k), chains, frames, goal, answer)
      modifies this, scopes, memo, k`budget, k`failed, k`masks, k`known, k.memo
      ensures Valid() && k.budget <= old(k.budget) && |rest| <= FRAME_LIMIT
      ensures !k.failed ==> Running(WorldOf(k), chains, rest, goal, equal)
      ensures !k.failed ==> k.budget < old(k.budget) || AlphaWeight(rest) < AlphaWeight(frames)
    {
      var top := |frames| - 1;
      var f := frames[top];
      if (f.waiting && !answer) || f.next == Compared(f) {
        equal := !(f.waiting && !answer);
        Completes(WorldOf(k), chains, frames, goal, answer);
        Completed(f, equal);
        WeightStep(frames, f, f);
        return frames[..top], equal;
      }
      rest, equal := Descend(frames, goal, answer);
    }

    /** The top frame goes to its next child. */
    method Descend(frames: seq<AlphaFrame>, ghost goal: bool, answer: bool) returns (rest: seq<AlphaFrame>, equal: bool)
      requires Valid() && !k.failed && 0 < |frames| <= FRAME_LIMIT && Running(WorldOf(k), chains, frames, goal, answer)
      requires var f := frames[|frames| - 1]; f.next != Compared(f) && (f.waiting ==> answer)
      modifies this, scopes, memo, k`budget, k`failed, k`masks, k`known, k.memo
      ensures Valid() && k.budget <= old(k.budget) && |rest| <= FRAME_LIMIT
      ensures !k.failed ==> Running(WorldOf(k), chains, rest, goal, equal)
      ensures !k.failed ==> k.budget < old(k.budget) || AlphaWeight(rest) < AlphaWeight(frames)
    {
      NextInRange(WorldOf(k), chains, frames, goal, answer);
      var top := |frames| - 1;
      var child := ChildOf(frames[top], frames[top].next);
      var lower := frames[..top] + [Waiting(frames[top])];
      rest, equal := DescendTo(frames, lower, child, goal, answer);
      if !k.failed && child.tubes { VisitLighter(frames, lower, rest); }
    }

    method DescendTo(ghost frames: seq<AlphaFrame>, lower: seq<AlphaFrame>, child: AlphaFrame, ghost goal: bool,
                     answer: bool)
      returns (rest: seq<AlphaFrame>, equal: bool)
      requires Valid() && !k.failed && 0 < |frames| <= FRAME_LIMIT && Running(WorldOf(k), chains, frames, goal, answer)
      requires var f := frames[|frames| - 1];
               && f.next != Compared(f) && (f.waiting ==> answer) && f.next < 3 && child == ChildOf(f, f.next)
               && lower == frames[..|frames| - 1] + [Waiting(f)]
      modifies this, scopes, memo, k`budget, k`failed, k`masks, k`known, k.memo
      ensures Valid() && k.budget <= old(k.budget) && |rest| <= FRAME_LIMIT
      ensures !k.failed ==> Running(WorldOf(k), chains, rest, goal, equal)
      ensures !k.failed && !child.tubes ==> k.budget < old(k.budget)
      ensures !k.failed && child.tubes ==> rest == lower || FreshOn(lower, rest)
    {
      Descends(WorldOf(k), chains, frames, lower, child, goal, answer);
      rest, equal := Visit(lower, child, goal, answer);
    }

    /** The child's comparison: its answer, or a frame for it. */
    method Visit(lower: seq<AlphaFrame>, child: AlphaFrame, ghost goal: bool, answer: bool)
      returns (rest: seq<AlphaFrame>, equal: bool)
      requires Valid() && !k.failed && 0 < |lower| <= FRAME_LIMIT && lower[|lower| - 1].waiting
      requires AskedOk(WorldOf(k), chains, child) && child.next == 0 && !child.waiting && !child.cache
      requires Running(WorldOf(k), chains, lower, goal, Goal(WorldOf(k), child))
      modifies this, scopes, memo, k`budget, k`failed, k`masks, k`known, k.memo
      ensures Valid() && k.budget <= old(k.budget) && |rest| <= FRAME_LIMIT
      ensures !k.failed ==> Running(WorldOf(k), chains, rest, goal, equal)
      ensures !k.failed && !child.tubes ==> k.budget < old(k.budget)
      ensures !k.failed && child.tubes ==> rest == lower || FreshOn(lower, rest)
    {
      ghost var w, was := WorldOf(k), chains;
      rest := lower;
      var pushed, c;
      pushed, c, equal := Ask(child, |lower|);
      if k.failed { return; }
      assert WorldOf(k) == w;
      Visited(w, was, chains, lower, goal, child, pushed, c, equal, answer);
      if pushed { rest, equal := lower + [c], answer; }
    }

    /** Whether two terms are equal up to bound names, whatever earlier comparisons have
        left in the memo and the scope table. */
    method Compare(a: nat, b: nat) returns (equal: bool)
      requires Valid() && a < |k.nodes| && b < |k.nodes|
      modifies this, scopes, memo, k`budget, k`failed, k`masks, k`known, k.memo
      ensures Valid() && k.budget <= old(k.budget)
      ensures !k.failed ==> (equal <==> Alike(k.meaning[a], k.meaning[b]))
      ensures k.failed ==> !equal
    {
      if k.failed { return false; }
      var root := Asked(a, b, Unscoped, Unscoped);
      ghost var goal := Goal(WorldOf(k), root);
      ChildStandalone(k.nodes, k.meaning, k.formulas, a);
      ChildStandalone(k.nodes, k.meaning, k.formulas, b);
      ViewsAlike(k.meaning[a], k.meaning[b]);
      var pushed, f;
      pushed, f, equal := Ask(root, 0);
      if k.failed { return false; }
      if !pushed { return; }
      equal := Traverse(f, goal);
    }

    method Traverse(f: AlphaFrame, ghost goal: bool) returns (equal: bool)
      requires Valid() && !k.failed && Started(WorldOf(k), chains, f) && f.next == 0 && !f.waiting
      requires Goal(WorldOf(k), f) == goal
      modifies this, scopes, memo, k`budget, k`failed, k`masks, k`known, k.memo
      ensures Valid() && k.budget <= old(k.budget)
      ensures !k.failed ==> equal == goal
      ensures k.failed ==> !equal
    {
      FreshFrame(WorldOf(k), chains, f, false);
      var frames := [f];
      equal := false;
      assert Linked(WorldOf(k), chains, frames, 0, equal);
      while frames != [] && !k.failed
        invariant Valid() && k.budget <= old(k.budget) && |frames| <= FRAME_LIMIT
        invariant !k.failed ==> Running(WorldOf(k), chains, frames, goal, equal)
        decreases k.budget, !k.failed, AlphaWeight(frames)
      {
        frames, equal := Step(frames, goal, equal);
      }
      if k.failed { equal := false; }
    }
  }
}
