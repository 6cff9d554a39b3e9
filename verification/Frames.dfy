/** The continuation frames of capture-avoiding substitution, what each stage of a frame
    has established about its answer, and that each move of a frame keeps it. */
module Frames {
  import opened Lattice
  import opened Nameless
  import opened FreeNames
  import opened Formulas
  import opened TermStore

  // ---- Requests and their meaning -----------------------------------------------------

  datatype World = World(nodes: seq<Syntax>, meaning: seq<Form>, formulas: seq<FormulaEntry>, bones: seq<Skeleton>)

  ghost predicate WorldOk(w: World) { GraphOk(w.nodes, w.meaning, w.formulas) && BonesOk(w.nodes, w.bones) }

  function BoneAt(w: World, h: nat): Skeleton { if h < |w.bones| then w.bones[h] else NoBone }

  ghost predicate Later(w: World, w': World) {
    Extends(w.nodes, w.meaning, w.formulas, w'.nodes, w'.meaning, w'.formulas) && w.bones <= w'.bones
  }

  datatype Operation =
    | ForTerm(value: nat)
    | ForDimension(list: seq<DimClause>)
    | ForTubes(list: seq<DimClause>, bodies: bool, faces: bool)

  datatype Request = Request(op: Operation, term: nat, name: nat)

  ghost predicate RequestOk(w: World, r: Request) {
    && r.term < |w.nodes| == |w.meaning|
    && match r.op
       case ForTerm(value) => value < |w.nodes|
       case ForDimension(list) => ListNormal(Interval, list)
       case ForTubes(list, _, _) =>
         ListNormal(Interval, list) && r.name < DIMENSIONS && (r.term == 0 || w.nodes[r.term].kind == TUBE)
  }

  ghost function Value(r: Request): set<Clause<Atom>>
    requires !r.op.ForTerm?
  {
    LiftedList(Interval, r.op.list)
  }

  /** What a request must answer. */
  ghost function Goal(w: World, r: Request): Form
    requires RequestOk(w, r)
  {
    match r.op
    case ForTerm(value) => SubstTerm(w.meaning[r.term], r.name, w.meaning[value])
    case ForDimension(_) => SubstDim(w.meaning[r.term], r.name, Value(r))
    case ForTubes(_, bodies, faces) => SubstList(w.meaning[r.term], r.name, Value(r), bodies, faces)
  }

  /** Substitution keeps the shape of a tube list. */
  lemma GoalShape(w: World, r: Request)
    requires WorldOk(w) && RequestOk(w, r)
    ensures r.term == 0 ==> Goal(w, r) == Absent
    ensures r.term != 0 && w.nodes[r.term].kind == TUBE ==> Goal(w, r).Form? && Goal(w, r).kind == TUBE
  {
    ChildStandalone(w.nodes, w.meaning, w.formulas, r.term);
  }

  // ---- Frames -------------------------------------------------------------------------

  datatype Stage =
    | Prepare | RenameDimension | RenameTerm | AfterRenameTerm | Children | TubeTail | Finish | Delegated

  /** `node` is rebuilt in place, child by child; `waiting` is one more than the child
      whose replacement another frame computes. */
  datatype Frame = Frame(request: Request, stage: Stage, node: Syntax, spare: nat, renaming: seq<DimClause>,
                         next: nat, waiting: nat, entry: nat, cache: bool)

  ghost function Slot(w: World, f: Frame, i: nat, m: Form): Form
    requires i < 3 && Child(f.node, i) < |w.meaning|
  {
    if f.waiting == i + 1 then m else w.meaning[Child(f.node, i)]
  }

  /** Substitution for a dimension keeps the skeleton: the node's, and each child's that the
      frame does not wait for. */
  ghost predicate Sound(w: World, f: Frame) {
    f.request.op.ForTerm? || f.stage.Prepare? || f.stage.Delegated? || Boned(w, f.node, f.request.term, f.waiting)
  }

  ghost predicate Boned(w: World, n: Syntax, t: nat, waiting: nat) {
    && t < |w.nodes| && n.kind == w.nodes[t].kind && Head(n.kind, n.payload) == Head(n.kind, w.nodes[t].payload)
    && (waiting == 1 || BoneAt(w, n.a) == BoneAt(w, w.nodes[t].a))
    && (waiting == 2 || BoneAt(w, n.b) == BoneAt(w, w.nodes[t].b))
    && (waiting == 3 || BoneAt(w, n.c) == BoneAt(w, w.nodes[t].c))
  }

  /** The skeleton of the answer that a frame waits for. */
  ghost predicate Expects(w: World, f: Frame, s: Skeleton) {
    f.request.op.ForTerm? ||
    (f.request.term < |w.nodes|
     && (0 < f.waiting <= 3 ==> s == BoneAt(w, Child(w.nodes[f.request.term], f.waiting - 1)))
     && (f.stage.Delegated? ==> s == BoneAt(w, f.request.term)))
  }

  ghost predicate ExpectsAnswer(w: World, f: Frame, r: Request) {
    f.request.op.ForTerm? || (!r.op.ForTerm? && Expects(w, f, BoneAt(w, r.term)))
  }

  /** An answer to a request. */
  ghost predicate Solves(w: World, r: Request, h: nat) {
    true ==
      (RequestOk(w, r) && h < |w.meaning| && w.meaning[h] == Goal(w, r)
       && (r.op.ForTerm? || BoneAt(w, h) == BoneAt(w, r.term)))
  }

  ghost predicate ListLike(m: Form) { m == Absent || m.kind == TUBE }

  /** What every frame keeps; `m` is the form that it waits for. */
  ghost predicate FrameKeeps(w: World, f: Frame, m: Form) {
    && WorldOk(w) && RequestOk(w, f.request) && f.request.term > 0
    && SyntaxOk(w.nodes, w.formulas, f.node, |w.nodes|)
    && f.waiting <= Arity(f.node.kind)
    && (f.waiting == 2 && (BindsTubes(f.node.kind) || f.node.kind == TUBE) ==> ListLike(m))
    && (f.request.op.ForTerm? ==>
          w.nodes[f.request.term].kind != VAR && f.request.name in FreeTerms(w.meaning[f.request.term]))
    && (f.request.op.ForDimension? ==> f.request.name < DIMENSIONS)
    && CacheOk(w, f) && Sound(w, f)
  }

  ghost predicate CacheOk(w: World, f: Frame) {
    f.cache ==>
      && !f.request.op.ForTubes?
      && (f.request.op.ForDimension? ==>
            f.entry < |w.formulas| && w.formulas[f.entry].sort == Interval
            && SetOf(w.formulas[f.entry].list) == SetOf(f.request.op.list))
  }

  /** The binder of the frame's node captures no dimension of the value. */
  ghost predicate DimSafe(w: World, f: Frame)
    requires RequestOk(w, f.request)
  {
    DimBinder(f.node.kind) ==>
      match f.request.op
      case ForTerm(value) => f.node.payload !in FreeDims(w.meaning[value])
      case ForDimension(list) => f.node.payload == f.request.name || f.node.payload !in ListNames(list)
      case ForTubes(_, _, _) => true
  }

  ghost predicate FreshOk(w: World, f: Frame)
    requires RequestOk(w, f.request)
  {
    && f.spare !in FreeDims(w.meaning[f.request.term]) && f.spare < DIMENSIONS
    && match f.request.op
       case ForTerm(value) => f.spare !in FreeDims(w.meaning[value])
       case ForDimension(list) => f.spare !in ListNames(list) && f.spare != f.request.name
       case ForTubes(_, _, _) => false
  }

  ghost function RenamedFirst(kind: Kind, e: nat, f: nat, a: Form): Form {
    if BindsFirst(kind) then SubstDim(a, e, Dimension(f)) else a
  }

  ghost function RenamedSecond(kind: Kind, e: nat, f: nat, b: Form): Form {
    if BindsTubes(kind) then SubstList(b, e, Dimension(f), true, false)
    else if BindsSecond(kind) then SubstDim(b, e, Dimension(f)) else b
  }

  /** What remains to be done to child `i`. */
  ghost function Pending(w: World, f: Frame, i: nat, x: Form): Form
    requires RequestOk(w, f.request)
  {
    var name := f.request.name;
    match f.request.op
    case ForTerm(value) =>
      if i == 1 && TermBinder(f.node.kind) && f.node.payload == name then x else SubstTerm(x, name, w.meaning[value])
    case ForDimension(_) =>
      if i == 0 then FirstSubst(f.node.kind, f.node.payload, x, name, Value(f.request))
      else if i == 1 then SecondSubst(f.node.kind, f.node.payload, x, name, Value(f.request))
      else SubstDim(x, name, Value(f.request))
    case ForTubes(_, _, _) => x
  }

  ghost function OwnTag(w: World, f: Frame): Tag { TagOf(w.formulas, f.node.kind, f.node.payload) }

  ghost function FinalTag(w: World, f: Frame): Tag
    requires RequestOk(w, f.request)
  {
    if f.request.op.ForDimension? then SubstTag(OwnTag(w, f), f.request.name, Value(f.request)) else OwnTag(w, f)
  }

  ghost function Built(w: World, f: Frame, tag: Tag, s0: Form, s1: Form, s2: Form): Form {
    Node(f.node.kind, f.node.payload, tag, s0, s1, s2)
  }

  // What each stage has established, from the forms of the node's children.

  ghost predicate RenamingOk(w: World, f: Frame, s0: Form, s1: Form, s2: Form)
    requires RequestOk(w, f.request)
  {
    var t := w.nodes[f.request.term];
    && f.next <= 2 && f.waiting <= f.next && !f.request.op.ForTubes?
    && DimBinder(t.kind) && t.payload < DIMENSIONS && f.node.kind == t.kind && f.node.payload == t.payload
    && t.a < |w.nodes| && t.b < |w.nodes| && t.c < |w.nodes|
    && FreshOk(w, f) && f.spare != t.payload
    && ListNormal(Interval, f.renaming) && LiftedList(Interval, f.renaming) == Dimension(f.spare)
    && s0 == (if f.next > 0 then RenamedFirst(t.kind, t.payload, f.spare, w.meaning[t.a]) else w.meaning[t.a])
    && s1 == (if f.next > 1 then RenamedSecond(t.kind, t.payload, f.spare, w.meaning[t.b]) else w.meaning[t.b])
    && s2 == w.meaning[t.c]
  }

  ghost predicate RenameTermOk(w: World, f: Frame, s0: Form, s1: Form, s2: Form)
    requires RequestOk(w, f.request)
  {
    && f.waiting == 0 && !f.request.op.ForTubes? && f.node.kind == w.nodes[f.request.term].kind && DimSafe(w, f)
    && w.meaning[f.request.term] == Built(w, f, OwnTag(w, f), s0, s1, s2)
  }

  ghost predicate AfterRenameOk(w: World, f: Frame, s0: Form, s1: Form, s2: Form)
    requires RequestOk(w, f.request)
  {
    && f.request.op.ForTerm? && TermBinder(f.node.kind) && f.node.kind == w.nodes[f.request.term].kind
    && f.waiting in {0, 2}
    && f.spare !in FreeTerms(w.meaning[f.request.op.value]) && f.spare != f.request.name
    && w.meaning[f.request.term] == Node(f.node.kind, f.spare, NoTag, s0, s1, s2)
  }

  ghost predicate ChildrenOk(w: World, f: Frame, s0: Form, s1: Form, s2: Form)
    requires RequestOk(w, f.request)
  {
    && f.next <= Arity(f.node.kind) && f.waiting <= f.next
    && !f.request.op.ForTubes? && (f.request.op.ForDimension? ==> f.node.kind != TUBE)
    && Goal(w, f.request) == Built(w, f, FinalTag(w, f), if f.next > 0 then s0 else Pending(w, f, 0, s0),
                                   if f.next > 1 then s1 else Pending(w, f, 1, s1),
                                       if f.next > 2 then s2 else Pending(w, f, 2, s2))
  }

  ghost predicate TubeTailOk(w: World, f: Frame, s0: Form)
    requires RequestOk(w, f.request)
  {
    var t := w.nodes[f.request.term];
    && f.request.op.ForTubes? && f.waiting <= 1 && t.kind == TUBE && t.a < |w.nodes|
    && f.node == t.(a := f.node.a)
    && s0 == (if f.request.op.bodies then SubstDim(w.meaning[t.a], f.request.name, Value(f.request))
              else w.meaning[t.a])
  }

  ghost predicate FinishOk(w: World, f: Frame, s0: Form, s1: Form, s2: Form)
    requires RequestOk(w, f.request)
  {
    && (f.request.op.ForDimension? ==> f.node.kind != TUBE)
    && Goal(w, f.request) == Built(w, f, FinalTag(w, f), s0, s1, s2)
  }

  ghost predicate StageOk(w: World, f: Frame, s0: Form, s1: Form, s2: Form, m: Form)
    requires RequestOk(w, f.request)
  {
    match f.stage
    case Prepare => f.waiting == f.next == 0
    case RenameDimension => RenamingOk(w, f, s0, s1, s2)
    case RenameTerm => RenameTermOk(w, f, s0, s1, s2)
    case AfterRenameTerm => AfterRenameOk(w, f, s0, s1, s2)
    case Children => ChildrenOk(w, f, s0, s1, s2)
    case TubeTail => TubeTailOk(w, f, s0)
    case Finish => FinishOk(w, f, s0, s1, s2)
    case Delegated => f.waiting == 0 && Goal(w, f.request) == m
  }

  ghost predicate FrameOk(w: World, f: Frame, m: Form) {
    FrameKeeps(w, f, m) && StageOk(w, f, Slot(w, f, 0, m), Slot(w, f, 1, m), Slot(w, f, 2, m), m)
  }

  predicate Settled(f: Frame) { f.waiting == 0 && f.stage != Delegated }

  predicate Waits(f: Frame) { f.waiting > 0 || f.stage == Delegated }

  // The next three are compared to `true` so that each is proved as one fact.

  /** A frame that waits for nothing. */
  ghost predicate Resting(w: World, f: Frame) { true == (FrameOk(w, f, Absent) && Settled(f)) }

  /** A frame waits for the request above it. */
  ghost predicate AwaitsRequest(w: World, f: Frame, r: Request) {
    true == (RequestOk(w, r) && Waits(f) && FrameOk(w, f, Goal(w, r)) && ExpectsAnswer(w, f, r))
  }

  /** A frame with the answer that it waits for. */
  ghost predicate Answered(w: World, f: Frame, result: nat) {
    true == (result < |w.meaning| && FrameOk(w, f, w.meaning[result]) && Expects(w, f, BoneAt(w, result)))
  }

  // ---- Frames as the store grows -----------------------------------------------------

  lemma RequestStable(w: World, w': World, r: Request)
    requires RequestOk(w, r) && Later(w, w') && |w'.nodes| == |w'.meaning|
    ensures RequestOk(w', r) && Goal(w', r) == Goal(w, r)
  {
  }

  lemma SyntaxStable(w: World, w': World, n: Syntax)
    requires SyntaxOk(w.nodes, w.formulas, n, |w.nodes|) && Later(w, w')
    ensures SyntaxOk(w'.nodes, w'.formulas, n, |w'.nodes|)
  {
  }

  lemma BonedStable(w: World, w': World, n: Syntax, t: nat, waiting: nat)
    requires Boned(w, n, t, waiting) && Later(w, w') && n.a < |w.nodes| && n.b < |w.nodes| && n.c < |w.nodes|
    requires WorldOk(w) && 0 < t
    ensures Boned(w', n, t, waiting)
  {
    assert HandleOk(w.nodes, w.meaning, w.formulas, t);
  }

  lemma ExpectsStable(w: World, w': World, f: Frame, s: Skeleton)
    requires Expects(w, f, s) && Later(w, w') && WorldOk(w) && 0 < f.request.term
    ensures Expects(w', f, s)
  {
    if !f.request.op.ForTerm? {
      assert HandleOk(w.nodes, w.meaning, w.formulas, f.request.term);
    }
  }

  lemma KeepsStable(w: World, w': World, f: Frame, m: Form)
    requires FrameKeeps(w, f, m) && Later(w, w') && WorldOk(w')
    ensures FrameKeeps(w', f, m)
  {
    RequestStable(w, w', f.request);
    SyntaxStable(w, w', f.node);
    if !f.request.op.ForTerm? && !f.stage.Prepare? && !f.stage.Delegated? {
      BonedStable(w, w', f.node, f.request.term, f.waiting);
    }
  }

  lemma RenamingStable(w: World, w': World, f: Frame, s0: Form, s1: Form, s2: Form)
    requires RequestOk(w, f.request) && RenamingOk(w, f, s0, s1, s2) && Later(w, w') && |w'.nodes| == |w'.meaning|
    requires UsesFormula(f.node.kind) ==> f.node.payload < |w.formulas|
    ensures RequestOk(w', f.request) && RenamingOk(w', f, s0, s1, s2)
  {
    RequestStable(w, w', f.request);
    TagStable(w.formulas, w'.formulas, f.node);
  }

  lemma ChildrenStable(w: World, w': World, f: Frame, s0: Form, s1: Form, s2: Form)
    requires RequestOk(w, f.request) && ChildrenOk(w, f, s0, s1, s2) && Later(w, w') && |w'.nodes| == |w'.meaning|
    requires UsesFormula(f.node.kind) ==> f.node.payload < |w.formulas|
    ensures RequestOk(w', f.request) && ChildrenOk(w', f, s0, s1, s2)
  {
    RequestStable(w, w', f.request);
    TagStable(w.formulas, w'.formulas, f.node);
  }

  lemma FinishStable(w: World, w': World, f: Frame, s0: Form, s1: Form, s2: Form)
    requires RequestOk(w, f.request) && FinishOk(w, f, s0, s1, s2) && Later(w, w') && |w'.nodes| == |w'.meaning|
    requires UsesFormula(f.node.kind) ==> f.node.payload < |w.formulas|
    ensures RequestOk(w', f.request) && FinishOk(w', f, s0, s1, s2)
  {
    RequestStable(w, w', f.request);
    TagStable(w.formulas, w'.formulas, f.node);
  }

  lemma StageStable(w: World, w': World, f: Frame, s0: Form, s1: Form, s2: Form, m: Form)
    requires RequestOk(w, f.request) && StageOk(w, f, s0, s1, s2, m) && Later(w, w') && |w'.nodes| == |w'.meaning|
    requires UsesFormula(f.node.kind) ==> f.node.payload < |w.formulas|
    ensures RequestOk(w', f.request) && StageOk(w', f, s0, s1, s2, m)
  {
    RequestStable(w, w', f.request);
    match f.stage
    case RenameDimension => RenamingStable(w, w', f, s0, s1, s2);
    case Children => ChildrenStable(w, w', f, s0, s1, s2);
    case Finish => FinishStable(w, w', f, s0, s1, s2);
    case RenameTerm => TagStable(w.formulas, w'.formulas, f.node);
    case _ =>
  }

  lemma FrameStable(w: World, w': World, f: Frame, m: Form)
    requires FrameOk(w, f, m) && Later(w, w') && WorldOk(w')
    ensures FrameOk(w', f, m)
  {
    KeepsStable(w, w', f, m);
    StageStable(w, w', f, Slot(w, f, 0, m), Slot(w, f, 1, m), Slot(w, f, 2, m), m);
  }

  // ---- Filling the awaited child -------------------------------------------------------

  function Filled(f: Frame, result: nat): Frame {
    if 0 < f.waiting <= 3 then f.(node := WithChild(f.node, f.waiting - 1, result), waiting := 0) else f
  }

  lemma FilledKeeps(w: World, f: Frame, result: nat)
    requires result < |w.nodes| == |w.meaning| && FrameKeeps(w, f, w.meaning[result])
    requires Expects(w, f, BoneAt(w, result))
    ensures FrameKeeps(w, Filled(f, result), w.meaning[result])
  {
    var g := Filled(f, result);
    ChildStandalone(w.nodes, w.meaning, w.formulas, result);
    if f.waiting > 0 {
      assert w.meaning[result] == Absent ==> result == 0;
      assert SyntaxOk(w.nodes, w.formulas, g.node, |w.nodes|);
    }
  }

  /** Frames that differ in their node's children only. */
  predicate SameBinder(f: Frame, g: Frame) {
    && g.request == f.request && g.spare == f.spare && g.renaming == f.renaming && g.next == f.next
    && g.node.kind == f.node.kind && g.node.payload == f.node.payload && g.waiting == 0
  }

  lemma FilledRenaming(w: World, f: Frame, g: Frame, s0: Form, s1: Form, s2: Form)
    requires RequestOk(w, f.request) && RenamingOk(w, f, s0, s1, s2) && SameBinder(f, g)
    ensures RenamingOk(w, g, s0, s1, s2)
  {
  }

  lemma FilledChildren(w: World, f: Frame, g: Frame, s0: Form, s1: Form, s2: Form)
    requires RequestOk(w, f.request) && ChildrenOk(w, f, s0, s1, s2) && SameBinder(f, g)
    ensures ChildrenOk(w, g, s0, s1, s2)
  {
  }

  lemma FilledFinish(w: World, f: Frame, g: Frame, s0: Form, s1: Form, s2: Form)
    requires RequestOk(w, f.request) && FinishOk(w, f, s0, s1, s2) && SameBinder(f, g)
    ensures FinishOk(w, g, s0, s1, s2)
  {
  }

  lemma FilledStage(w: World, f: Frame, result: nat, s0: Form, s1: Form, s2: Form, m: Form)
    requires RequestOk(w, f.request) && StageOk(w, f, s0, s1, s2, m)
    ensures StageOk(w, Filled(f, result), s0, s1, s2, m)
  {
    var g := Filled(f, result);
    if g != f {
      match f.stage
      case RenameDimension => FilledRenaming(w, f, g, s0, s1, s2);
      case Children => FilledChildren(w, f, g, s0, s1, s2);
      case Finish => FilledFinish(w, f, g, s0, s1, s2);
      case _ =>
    }
  }

  lemma FilledOk(w: World, f: Frame, result: nat)
    requires result < |w.nodes| == |w.meaning| && FrameOk(w, f, w.meaning[result]) && Expects(w, f, BoneAt(w, result))
    ensures FrameOk(w, Filled(f, result), w.meaning[result])
  {
    var m := w.meaning[result];
    FilledKeeps(w, f, result);
    FilledStage(w, f, result, Slot(w, f, 0, m), Slot(w, f, 1, m), Slot(w, f, 2, m), m);
  }

  // ---- What each stage needs -----------------------------------------------------------

  lemma ValueMentions(r: Request, e: nat)
    requires !r.op.ForTerm? && ListNormal(Interval, r.op.list)
    ensures Mentions(Value(r), Free(e)) <==> e in ListNames(r.op.list)
  {
    ListNamesExact(Interval, r.op.list);
    TagDimsMention(Formula(Interval, Value(r)), e);
  }

  /** Renaming a binder to a fresh dimension leaves the whole form as it was. */
  lemma RenamedWhole(w: World, h: nat, f: nat)
    requires WorldOk(w) && 0 < h < |w.nodes| && DimBinder(w.nodes[h].kind)
    requires f !in FreeDims(w.meaning[h]) && f != w.nodes[h].payload
    ensures SyntaxOk(w.nodes, w.formulas, w.nodes[h], h)
    ensures var n := w.nodes[h];
            forall tag :: w.meaning[h] == Node(n.kind, f, tag, RenamedFirst(n.kind, n.payload, f, w.meaning[n.a]),
                                               RenamedSecond(n.kind, n.payload, f, w.meaning[n.b]), w.meaning[n.c])
  {
    assert HandleOk(w.nodes, w.meaning, w.formulas, h);
    var n := w.nodes[h];
    var a, b, c := w.meaning[n.a], w.meaning[n.b], w.meaning[n.c];
    NodeNames(w.nodes, w.meaning, w.formulas, n);
    ListDimsBound(b, n.payload);
    FreeDimsAreFree(a, f);
    FreeDimsAreFree(b, f);
    RenameDimNode(n.kind, n.payload, f, TagOf(w.formulas, n.kind, n.payload), a, b, c);
  }

  /** A node whose binder is safe: the substitution goes to its children. */
  lemma IntoChildren(w: World, f: Frame)
    requires f.stage.RenameTerm? && Resting(w, f)
    requires f.request.op.ForTerm? && TermBinder(f.node.kind) && f.node.payload != f.request.name ==>
               f.node.payload !in FreeTerms(w.meaning[f.request.op.value])
    requires f.request.op.ForDimension? ==> f.node.kind != TUBE
    ensures FrameOk(w, f.(stage := Children, next := 0), Absent)
  {
    var n, r := f.node, f.request;
    var a, b, c := w.meaning[n.a], w.meaning[n.b], w.meaning[n.c];
    ChildStandalone(w.nodes, w.meaning, w.formulas, n.a);
    ChildStandalone(w.nodes, w.meaning, w.formulas, n.b);
    if r.op.ForTerm? {
      ChildStandalone(w.nodes, w.meaning, w.formulas, r.op.value);
      FreeDimsAreFree(w.meaning[r.op.value], n.payload);
      SubstTermNode(n.kind, n.payload, OwnTag(w, f), a, b, c, r.name, w.meaning[r.op.value]);
    } else {
      ValueMentions(r, n.payload);
      SubstDimNode(n.kind, n.payload, OwnTag(w, f), a, b, c, r.name, Value(r));
    }
  }

  // ---- A frame for a request -----------------------------------------------------------

  function Root(request: Request, entry: nat, cache: bool): Frame {
    Frame(request, Prepare, Syntax(LEAF, 0, 0, 0, 0), 0, [], 0, 0, entry, cache)
  }

  lemma RootOk(w: World, r: Request, entry: nat, cache: bool)
    requires WorldOk(w) && RequestOk(w, r) && r.term > 0 && CacheOk(w, Root(r, entry, cache))
    requires r.op.ForTerm? ==> w.nodes[r.term].kind != VAR && r.name in FreeTerms(w.meaning[r.term])
    requires r.op.ForDimension? ==> r.name < DIMENSIONS
    ensures Resting(w, Root(r, entry, cache))
  {
  }

  // ---- The moves of a frame ------------------------------------------------------------

  /** A step of the top frame: another frame for it, another frame that waits for a
      request, or its answer. */
  datatype Move = Stay(frame: Frame) | Call(frame: Frame, request: Request) | Answer(result: nat)

  function Weight(f: Frame): nat {
    match f.stage
    case Prepare => 20
    case RenameDimension => if f.next <= 2 then 19 - f.next else 0
    case RenameTerm => 12
    case AfterRenameTerm => 11
    case Children => if f.next <= 3 then 10 - f.next else 0
    case TubeTail => 2
    case Finish => 1
    case Delegated => 0
  }

  ghost predicate MoveOk(w: World, f: Frame, move: Move) {
    true == match move
    case Stay(g) => g.request == f.request && Resting(w, g) && Weight(g) < Weight(f)
    case Call(g, r) => g.request == f.request && AwaitsRequest(w, g, r) && Weight(g) < Weight(f)
    case Answer(h) => Solves(w, f.request, h)
  }

  /** A settled frame waits for nothing, so any form will do. */
  lemma SettledOk(w: World, f: Frame, m: Form, m': Form)
    requires FrameOk(w, f, m) && Settled(f)
    ensures FrameOk(w, f, m')
  {
  }

  lemma KeepsWaiting(w: World, f: Frame, g: Frame, m: Form)
    requires FrameKeeps(w, f, Absent) && g.request == f.request && g.node == f.node && g.cache == f.cache
    requires g.entry == f.entry
    requires g.waiting <= Arity(g.node.kind)
    requires g.waiting == 2 && (BindsTubes(g.node.kind) || g.node.kind == TUBE) ==> ListLike(m)
    requires g.stage == f.stage && f.waiting == 0 && !f.stage.Prepare? && !f.stage.Delegated?
    ensures FrameKeeps(w, g, m)
  {
  }

  lemma TermNodeOk(w: World, h: nat)
    requires WorldOk(w) && 0 < h < |w.nodes|
    ensures SyntaxOk(w.nodes, w.formulas, w.nodes[h], h)
    ensures w.meaning[h] == NodeForm(w.formulas, w.meaning, w.nodes[h])
  {
    assert HandleOk(w.nodes, w.meaning, w.formulas, h);
  }

  // ---- Preparing -----------------------------------------------------------------------

  function Prepared(w: World, f: Frame): Frame
    requires f.request.term < |w.nodes|
  {
    f.(node := w.nodes[f.request.term])
  }

  function TubesMove(f: Frame, n: Syntax): Move {
    var g := f.(node := n, stage := TubeTail);
    if !f.request.op.ForTubes? || !f.request.op.bodies then Stay(g)
    else Call(g.(waiting := 1), Request(ForDimension(f.request.op.list), n.a, f.request.name))
  }

  function KeptMove(f: Frame, n: Syntax): Move { Stay(f.(node := n, stage := RenameTerm)) }

  function SpareMove(f: Frame, n: Syntax, spare: nat, renaming: seq<DimClause>): Move {
    Stay(f.(node := n, stage := RenameDimension, spare := spare, renaming := renaming))
  }

  lemma KeepsPrepared(w: World, f: Frame, g: Frame, m: Form)
    requires FrameKeeps(w, f, Absent) && g.request == f.request && g.cache == f.cache && g.entry == f.entry
    requires g.node == w.nodes[f.request.term] && g.waiting <= Arity(g.node.kind) && g.waiting != 2
    ensures FrameKeeps(w, g, m)
  {
    TermNodeOk(w, f.request.term);
  }

  lemma PrepareTubes(w: World, f: Frame)
    requires Resting(w, f) && f.stage.Prepare? && f.request.op.ForTubes?
    ensures MoveOk(w, f, TubesMove(f, w.nodes[f.request.term]))
  {
    var g := Prepared(w, f).(stage := TubeTail);
    TermNodeOk(w, f.request.term);
    if f.request.op.bodies {
      var r := Request(ForDimension(f.request.op.list), g.node.a, f.request.name);
      assert RequestOk(w, r);
      KeepsPrepared(w, f, g.(waiting := 1), Goal(w, r));
    } else {
      KeepsPrepared(w, f, g, Absent);
    }
  }

  /** The dimensions of the value that is put in. */
  ghost function ValueDims(w: World, r: Request): set<nat>
    requires RequestOk(w, r)
  {
    match r.op
    case ForTerm(value) => FreeDims(w.meaning[value])
    case ForDimension(list) => ListNames(list)
    case ForTubes(_, _, _) => {}
  }

  predicate Captures(f: Frame, n: Syntax, dims: set<nat>) {
    (f.request.op.ForTerm? || n.payload != f.request.name) && n.payload in dims
  }

  lemma PrepareSafe(w: World, f: Frame)
    requires Resting(w, f) && f.stage.Prepare? && !f.request.op.ForTubes?
    requires DimBinder(w.nodes[f.request.term].kind) ==> !Captures(f, w.nodes[f.request.term], ValueDims(w, f.request))
    ensures DimSafe(w, Prepared(w, f))
  {
  }

  lemma PrepareKept(w: World, f: Frame)
    requires Resting(w, f) && f.stage.Prepare? && !f.request.op.ForTubes?
    requires DimSafe(w, Prepared(w, f))
    ensures MoveOk(w, f, KeptMove(f, w.nodes[f.request.term]))
  {
    TermNodeOk(w, f.request.term);
  }

  lemma PrepareRenaming(w: World, f: Frame, spare: nat, renaming: seq<DimClause>)
    requires Resting(w, f) && f.stage.Prepare? && !f.request.op.ForTubes?
    requires DimBinder(w.nodes[f.request.term].kind) && w.nodes[f.request.term].payload < DIMENSIONS
    requires FreshOk(w, f.(spare := spare)) && spare != w.nodes[f.request.term].payload
    requires ListNormal(Interval, renaming) && LiftedList(Interval, renaming) == Dimension(spare)
    ensures MoveOk(w, f, SpareMove(f, w.nodes[f.request.term], spare, renaming))
  {
    TermNodeOk(w, f.request.term);
  }

  // ---- Renaming a dimension binder -------------------------------------------------------

  /** Whether a dimension binder binds in child `i`; child 1 of a composition is its
      tube list, whose bodies it binds. */
  predicate BindsIn(kind: Kind, i: nat) {
    if i == 0 then kind != HCOMP else kind == PLAM || kind == COMP || kind == HCOMP
  }

  function RenameRequest(f: Frame): Request {
    if f.next == 1 && BindsTubes(f.node.kind)
    then Request(ForTubes(f.renaming, true, false), f.node.b, f.node.payload)
    else Request(ForDimension(f.renaming), Child(f.node, if f.next < 2 then f.next else 0), f.node.payload)
  }

  lemma RenameRequestOk(w: World, f: Frame)
    requires Resting(w, f) && f.stage.RenameDimension? && f.waiting == 0 && f.next < 2 && BindsIn(f.node.kind, f.next)
    ensures var r := RenameRequest(f);
            && RequestOk(w, r)
            && (f.next == 1 && BindsTubes(f.node.kind) ==> ListLike(Goal(w, r)))
            && Goal(w, r) == if f.next == 0 then RenamedFirst(f.node.kind, f.node.payload, f.spare, w.meaning[f.node.a])
                             else RenamedSecond(f.node.kind, f.node.payload, f.spare, w.meaning[f.node.b])
  {
    if f.next == 1 && BindsTubes(f.node.kind) { GoalShape(w, RenameRequest(f)); }
  }

  lemma RenameWaits(w: World, f: Frame, m: Form)
    requires FrameKeeps(w, f, Absent) && f.waiting == 0 && f.next < 2 && DimBinder(f.node.kind)
    requires RenamingOk(w, f, w.meaning[f.node.a], w.meaning[f.node.b], w.meaning[f.node.c])
    requires if BindsIn(f.node.kind, f.next) then
               m == if f.next == 0 then RenamedFirst(f.node.kind, f.node.payload, f.spare, w.meaning[f.node.a])
                    else RenamedSecond(f.node.kind, f.node.payload, f.spare, w.meaning[f.node.b])
             else m == w.meaning[Child(f.node, f.next)]
    ensures RenamingOk(w, f.(next := f.next + 1, waiting := f.next + 1), if f.next == 0 then m else w.meaning[f.node.a],
                       if f.next == 1 then m else w.meaning[f.node.b], w.meaning[f.node.c])
    ensures !BindsIn(f.node.kind, f.next) ==>
              RenamingOk(w, f.(next := f.next + 1), w.meaning[f.node.a], w.meaning[f.node.b], w.meaning[f.node.c])
  {
  }

  lemma RenameChild(w: World, f: Frame)
    requires Resting(w, f) && f.stage.RenameDimension? && f.waiting == 0 && f.next < 2
    ensures var g := f.(next := f.next + 1);
            MoveOk(w, f, if BindsIn(f.node.kind, f.next) then Call(g.(waiting := f.next + 1), RenameRequest(f))
                   else Stay(g))
  {
    var g := f.(next := f.next + 1);
    if BindsIn(f.node.kind, f.next) {
      RenameRequestOk(w, f);
      KeepsWaiting(w, f, g.(waiting := f.next + 1), Goal(w, RenameRequest(f)));
      RenameWaits(w, f, Goal(w, RenameRequest(f)));
    } else {
      KeepsWaiting(w, f, g, Absent);
      RenameWaits(w, f, w.meaning[Child(f.node, f.next)]);
    }
  }

  function RenamedFrame(f: Frame): Frame {
    f.(next := 3, node := f.node.(payload := f.spare), stage := RenameTerm)
  }

  /** With its children renamed, the node is what it was, bound by the spare dimension. */
  lemma RenamedStage(w: World, f: Frame, s0: Form, s1: Form, s2: Form)
    requires RequestOk(w, f.request) && WorldOk(w) && 0 < f.request.term < |w.nodes|
    requires RenamingOk(w, f, s0, s1, s2) && f.waiting == 0 && f.next == 2
    ensures RenameTermOk(w, RenamedFrame(f), s0, s1, s2)
  {
    RenamedWhole(w, f.request.term, f.spare);
  }

  lemma RenamedKeeps(w: World, f: Frame)
    requires FrameKeeps(w, f, Absent) && f.stage.RenameDimension? && f.waiting == 0
    requires DimBinder(f.node.kind)
    ensures FrameKeeps(w, RenamedFrame(f), Absent)
  {
  }

  lemma RenamedChildren(w: World, f: Frame)
    requires Resting(w, f) && f.stage.RenameDimension? && f.waiting == 0 && f.next == 2
    ensures MoveOk(w, f, Stay(RenamedFrame(f)))
  {
    RenamedStage(w, f, Slot(w, f, 0, Absent), Slot(w, f, 1, Absent), Slot(w, f, 2, Absent));
    RenamedKeeps(w, f);
  }

  // ---- Renaming a term binder ------------------------------------------------------------

  /** The binder's name is free in the value: it is renamed, in its body, to a symbol
      that no term has. */
  lemma RenameBody(w: World, f: Frame, spare: nat, v: nat)
    requires Resting(w, f) && f.stage.RenameTerm? && f.request.op.ForTerm? && TermBinder(f.node.kind)
    requires v < |w.nodes| && w.meaning[v] == Variable(Free(spare))
    requires spare !in FreeTerms(w.meaning[f.request.op.value]) && spare != f.request.name
    requires spare !in FreeTerms(w.meaning[f.node.b])
    ensures MoveOk(w, f,
                   Call(f.(spare := spare, stage := AfterRenameTerm, waiting := 2),
                        Request(ForTerm(v), f.node.b, f.node.payload)))
  {
    var n := f.node;
    RenameTermNode(n.kind, n.payload, spare, OwnTag(w, f), w.meaning[n.a], w.meaning[n.b], w.meaning[n.c]);
  }

  /** The same for a symbol that was new. */
  lemma SpareOk(was: World, w: World, f: Frame, spare: nat, v: nat)
    requires Resting(was, f) && f.stage.RenameTerm? && f.request.op.ForTerm? && TermBinder(f.node.kind)
    requires Later(was, w) && WorldOk(w) && v < |w.nodes| && w.meaning[v] == Variable(Free(spare))
    requires forall h :: 0 <= h < |was.meaning| ==> spare !in FreeTerms(was.meaning[h])
    ensures MoveOk(w, f,
                   Call(f.(spare := spare, stage := AfterRenameTerm, waiting := 2),
                        Request(ForTerm(v), f.node.b, f.node.payload)))
  {
    FrameStable(was, w, f, Absent);
    assert spare !in FreeTerms(was.meaning[f.request.op.value]) && spare !in FreeTerms(was.meaning[f.node.b]);
    assert f.request.name in FreeTerms(was.meaning[f.request.term]);
    RenameBody(w, f, spare, v);
  }

  lemma RenamedBody(w: World, f: Frame)
    requires Resting(w, f) && f.stage.AfterRenameTerm? && f.waiting == 0
    ensures MoveOk(w, f, Stay(f.(node := f.node.(payload := f.spare), next := 0, stage := Children)))
  {
    IntoChildren(w, f.(node := f.node.(payload := f.spare), stage := RenameTerm));
  }

  function DelegateMove(f: Frame): Move {
    if !f.request.op.ForDimension? then Stay(f)
    else Call(f.(next := 0, stage := Delegated),
              Request(ForTubes(f.request.op.list, true, true), f.request.term, f.request.name))
  }

  function IntoMove(f: Frame): Move { Stay(f.(stage := Children, next := 0)) }

  lemma IntoMoveOk(w: World, f: Frame)
    requires f.stage.RenameTerm? && Resting(w, f)
    requires f.request.op.ForTerm? && TermBinder(f.node.kind) && f.node.payload != f.request.name ==>
               f.node.payload !in FreeTerms(w.meaning[f.request.op.value])
    requires f.request.op.ForDimension? ==> f.node.kind != TUBE
    ensures MoveOk(w, f, IntoMove(f))
  {
    IntoChildren(w, f);
  }

  lemma DelegateTubes(w: World, f: Frame)
    requires Resting(w, f) && f.stage.RenameTerm? && f.request.op.ForDimension? && f.node.kind == TUBE
    ensures MoveOk(w, f, DelegateMove(f))
  {
    DelegateFrameOk(w, f);
    var r := Request(ForTubes(f.request.op.list, true, true), f.request.term, f.request.name);
    assert AwaitsRequest(w, f.(next := 0, stage := Delegated), r);
  }

  lemma DelegateFrameOk(w: World, f: Frame)
    requires Resting(w, f) && f.stage.RenameTerm? && f.request.op.ForDimension? && f.node.kind == TUBE
    ensures var r := Request(ForTubes(f.request.op.list, true, true), f.request.term, f.request.name);
            RequestOk(w, r) && FrameOk(w, f.(next := 0, stage := Delegated), Goal(w, r))
  {
    var r := Request(ForTubes(f.request.op.list, true, true), f.request.term, f.request.name);
    SubstListAll(w.meaning[f.request.term], f.request.name, Value(f.request));
    KeepsDelegated(w, f, f.(next := 0, stage := Delegated), Goal(w, r));
  }

  lemma KeepsDelegated(w: World, f: Frame, g: Frame, m: Form)
    requires FrameKeeps(w, f, Absent) && f.waiting == 0 && g == f.(next := 0, stage := Delegated)
    ensures FrameKeeps(w, g, m)
  {
  }

  // ---- The children -----------------------------------------------------------------------

  /** Whether the binder has child `i` out of the substitution's reach. */
  predicate Spared(f: Frame, i: nat) {
    match f.request.op
    case ForTerm(_) => i == 1 && TermBinder(f.node.kind) && f.node.payload == f.request.name
    case ForDimension(_) =>
      f.node.payload == f.request.name && ((i == 0 && BindsFirst(f.node.kind)) || (i == 1 && BindsSecond(f.node.kind)))
    case ForTubes(_, _, _) => true
  }

  function ChildRequest(f: Frame): Request
    requires f.next < 3
  {
    var child, name := Child(f.node, f.next), f.request.name;
    match f.request.op
    case ForTerm(value) => Request(f.request.op, child, name)
    case ForDimension(list) =>
      if f.next == 1 && BindsTubes(f.node.kind) then Request(ForTubes(list, f.node.payload != name, true), child, name)
      else Request(f.request.op, child, name)
    case ForTubes(_, _, _) => f.request
  }

  lemma ChildPending(w: World, f: Frame)
    requires FrameKeeps(w, f, Absent) && f.next < Arity(f.node.kind) && !f.request.op.ForTubes?
    ensures var x := w.meaning[Child(f.node, f.next)];
            if Spared(f, f.next) then Pending(w, f, f.next, x) == x
            else RequestOk(w, ChildRequest(f)) && Goal(w, ChildRequest(f)) == Pending(w, f, f.next, x)
                 && (f.next == 1 && (BindsTubes(f.node.kind) || f.node.kind == TUBE) ==>
                       ListLike(Goal(w, ChildRequest(f))))
  {
    if !Spared(f, f.next) && f.next == 1 && (BindsTubes(f.node.kind) || f.node.kind == TUBE) {
      GoalShape(w, ChildRequest(f));
    }
  }

  lemma ChildWaits(w: World, f: Frame, m: Form)
    requires FrameKeeps(w, f, Absent) && f.waiting == 0 && f.next < Arity(f.node.kind)
    requires ChildrenOk(w, f, w.meaning[f.node.a], w.meaning[f.node.b], w.meaning[f.node.c])
    requires m == Pending(w, f, f.next, w.meaning[Child(f.node, f.next)])
    ensures ChildrenOk(w, f.(next := f.next + 1, waiting := f.next + 1), if f.next == 0 then m else w.meaning[f.node.a],
                       if f.next == 1 then m else w.meaning[f.node.b], if f.next == 2 then m else w.meaning[f.node.c])
    ensures m == w.meaning[Child(f.node, f.next)] ==>
              ChildrenOk(w, f.(next := f.next + 1), w.meaning[f.node.a], w.meaning[f.node.b], w.meaning[f.node.c])
  {
  }

  lemma NextChild(w: World, f: Frame)
    requires Resting(w, f) && f.stage.Children? && f.waiting == 0 && f.next < Arity(f.node.kind)
    ensures var g := f.(next := f.next + 1);
            MoveOk(w, f, if Spared(f, f.next) then Stay(g) else Call(g.(waiting := f.next + 1), ChildRequest(f)))
  {
    var g := f.(next := f.next + 1);
    ChildPending(w, f);
    if Spared(f, f.next) {
      KeepsWaiting(w, f, g, Absent);
    } else {
      KeepsWaiting(w, f, g.(waiting := f.next + 1), Goal(w, ChildRequest(f)));
    }
    ChildWaits(w, f, Pending(w, f, f.next, w.meaning[Child(f.node, f.next)]));
  }

  // The stages that only rearrange the frame are functions.

  function RenameMove(f: Frame): Move {
    if f.next >= 2 then Stay(f.(next := 3, node := f.node.(payload := f.spare), stage := RenameTerm))
    else if BindsIn(f.node.kind, f.next) then Call(f.(next := f.next + 1, waiting := f.next + 1), RenameRequest(f))
    else Stay(f.(next := f.next + 1))
  }

  function AfterRenameMove(f: Frame): Move {
    Stay(f.(node := f.node.(payload := f.spare), next := 0, stage := Children))
  }

  function ChildrenMove(f: Frame): Move {
    if f.next >= Arity(f.node.kind) then Stay(f.(stage := Finish))
    else if Spared(f, f.next) then Stay(f.(next := f.next + 1))
    else Call(f.(next := f.next + 1, waiting := f.next + 1), ChildRequest(f))
  }

  predicate Local(stage: Stage) { stage in {RenameDimension, AfterRenameTerm, Children} }

  function LocalMove(f: Frame): Move
    requires Local(f.stage)
  {
    match f.stage
    case RenameDimension => RenameMove(f)
    case AfterRenameTerm => AfterRenameMove(f)
    case Children => ChildrenMove(f)
  }

  lemma LocalMoveOk(w: World, f: Frame)
    requires Resting(w, f) && Local(f.stage) && f.waiting == 0
    ensures MoveOk(w, f, LocalMove(f))
  {
    if f.stage == RenameDimension && f.next == 2 {
      RenamedChildren(w, f);
    } else if f.stage == RenameDimension {
      RenameChild(w, f);
    } else if f.stage == AfterRenameTerm {
      RenamedBody(w, f);
    } else if f.next == Arity(f.node.kind) {
      NoChildLeft(w, f);
    } else {
      NextChild(w, f);
    }
  }

  lemma NoChildLeft(w: World, f: Frame)
    requires Resting(w, f) && f.stage.Children? && f.waiting == 0 && f.next == Arity(f.node.kind)
    ensures MoveOk(w, f, Stay(f.(stage := Finish)))
  {
    assert w.meaning[0] == Absent;
  }

  // ---- Finishing ---------------------------------------------------------------------------

  /** The formula `id` is the one named by `n` with the dimension replaced. */
  ghost predicate FormulaReplaced(w: World, n: Syntax, r: Request, w': World, id: nat)
    requires !r.op.ForTerm?
  {
    && UsesFormula(n.kind) && n.payload < |w.formulas| && 0 < id < |w'.formulas|
    && w'.formulas[id].sort == w.formulas[n.payload].sort
    && Lifted(w'.formulas[id])
       == Substituted(w'.formulas[id].sort, Lifted(w.formulas[n.payload]), Free(r.name), Value(r))
  }

  ghost predicate Rebuilt(w: World, f: Frame, n: Syntax) {
    && RequestOk(w, f.request) && SyntaxOk(w.nodes, w.formulas, n, |w.nodes|) && |w.nodes| == |w.meaning|
    && Goal(w, f.request) == NodeForm(w.formulas, w.meaning, n)
  }

  ghost predicate Finished(w: World, f: Frame, n: Syntax) {
    true == (Rebuilt(w, f, n) && f.request.term > 0 && (f.request.op.ForTerm? || Boned(w, n, f.request.term, 0)))
  }

  lemma FinishNode(w: World, f: Frame)
    requires Resting(w, f) && f.stage.Finish? && f.waiting == 0
    requires f.request.op.ForDimension? ==> f.node.kind != PAPP
    ensures Finished(w, f, f.node)
  {
  }

  lemma FinishApplication(w: World, f: Frame, w': World, id: nat)
    requires Resting(w, f) && f.stage.Finish? && f.waiting == 0 && f.request.op.ForDimension? && f.node.kind == PAPP
    requires Later(w, w') && WorldOk(w') && FormulaReplaced(w, f.node, f.request, w', id)
    ensures Finished(w', f, f.node.(payload := id))
  {
    RequestStable(w, w', f.request);
    BonedStable(w, w', f.node, f.request.term, 0);
  }

  /** The rebuilt node answers, under the handle that has it. */
  lemma FinishedSolves(w: World, f: Frame, n: Syntax, w': World, h: nat)
    requires WorldOk(w) && WorldOk(w') && Later(w, w') && Finished(w, f, n) && w'.formulas == w.formulas
    requires 0 < h < |w'.nodes| && w'.nodes[h] == n && 0 < f.request.term
    ensures Solves(w', f.request, h)
  {
    RequestStable(w, w', f.request);
    TermNodeOk(w', h);
    if !f.request.op.ForTerm? {
      BonedStable(w, w', n, f.request.term, 0);
      assert BoneOk(w'.nodes, w'.bones, h) && BoneOk(w'.nodes, w'.bones, f.request.term);
    }
  }

  lemma TailKeeps(w: World, f: Frame, id: nat)
    requires Resting(w, f) && f.stage.TubeTail? && f.waiting == 0 && 0 < id < |w.formulas|
    ensures var r := Request(f.request.op, f.node.b, f.request.name);
            RequestOk(w, r)
                && FrameKeeps(w, f.(node := f.node.(payload := id), stage := Finish, waiting := 2), Goal(w, r))
  {
    TermNodeOk(w, f.request.term);
    GoalShape(w, Request(f.request.op, f.node.b, f.request.name));
  }

  lemma TailFinish(w: World, f: Frame, tag: Tag)
    requires Resting(w, f) && f.stage.TubeTail? && f.waiting == 0
    requires tag == if f.request.op.faces then SubstTag(OwnTag(w, f), f.request.name, Value(f.request))
             else OwnTag(w, f)
    ensures var r := Request(f.request.op, f.node.b, f.request.name);
            RequestOk(w, r)
                && Goal(w, f.request) == Node(TUBE, 0, tag, w.meaning[f.node.a], Goal(w, r), w.meaning[f.node.c])
  {
    TermNodeOk(w, f.request.term);
  }

  lemma ReplacedTag(w: World, f: Frame, w': World, id: nat)
    requires RequestOk(w, f.request) && Later(w, w') && !f.request.op.ForTerm?
    requires FormulaReplaced(w, f.node, f.request, w', id)
    ensures TagOf(w'.formulas, f.node.kind, id) == SubstTag(OwnTag(w', f), f.request.name, Value(f.request))
  {
    TagStable(w.formulas, w'.formulas, f.node);
  }

  function TailFrame(f: Frame, id: nat): Frame { f.(node := f.node.(payload := id), stage := Finish, waiting := 2) }

  function TailRequest(f: Frame): Request { Request(f.request.op, f.node.b, f.request.name) }

  lemma TailFrameOk(w: World, f: Frame, id: nat)
    requires Resting(w, f) && f.stage.TubeTail? && f.waiting == 0 && 0 < id < |w.formulas|
    requires TagOf(w.formulas, TUBE, id)
             == if f.request.op.faces then SubstTag(OwnTag(w, f), f.request.name, Value(f.request)) else OwnTag(w, f)
    ensures RequestOk(w, TailRequest(f)) && FrameOk(w, TailFrame(f, id), Goal(w, TailRequest(f)))
  {
    TailKeeps(w, f, id);
    TailStage(w, f, id);
  }

  lemma TailStage(w: World, f: Frame, id: nat)
    requires Resting(w, f) && f.stage.TubeTail? && f.waiting == 0 && 0 < id < |w.formulas|
    requires TagOf(w.formulas, TUBE, id)
             == if f.request.op.faces then SubstTag(OwnTag(w, f), f.request.name, Value(f.request)) else OwnTag(w, f)
    requires RequestOk(w, TailRequest(f))
    ensures var g, m := TailFrame(f, id), Goal(w, TailRequest(f));
            g.node.a < |w.meaning| && g.node.b < |w.meaning| && g.node.c < |w.meaning| && RequestOk(w, g.request)
            && StageOk(w, g, Slot(w, g, 0, m), Slot(w, g, 1, m), Slot(w, g, 2, m), m)
  {
    TailFinish(w, f, TagOf(w.formulas, TUBE, id));
    TailSlots(w, f, id, Goal(w, TailRequest(f)));
    var g, m := TailFrame(f, id), Goal(w, TailRequest(f));
    assert FinishOk(w, g, w.meaning[g.node.a], m, w.meaning[g.node.c]);
  }

  /** The tail's frame waits for the rest of the list and has the other children. */
  lemma TailSlots(w: World, f: Frame, id: nat, m: Form)
    requires Resting(w, f) && f.stage.TubeTail? && f.waiting == 0
    ensures var g := TailFrame(f, id);
            && g.node == f.node.(payload := id) && g.node.kind == TUBE && g.request == f.request && g.stage == Finish
            && f.request.op.ForTubes? && RequestOk(w, f.request)
            && g.node.a < |w.meaning| && g.node.b < |w.meaning| && g.node.c < |w.meaning|
            && Slot(w, g, 0, m) == w.meaning[g.node.a] && Slot(w, g, 1, m) == m
            && Slot(w, g, 2, m) == w.meaning[g.node.c]
  {
  }

  /** A tube's face is replaced, or kept, and the rest of the list is next. */
  lemma TailMove(w: World, f: Frame, id: nat)
    requires Resting(w, f) && f.stage.TubeTail? && f.waiting == 0 && 0 < id < |w.formulas|
    requires TagOf(w.formulas, TUBE, id)
             == if f.request.op.faces then SubstTag(OwnTag(w, f), f.request.name, Value(f.request)) else OwnTag(w, f)
    ensures MoveOk(w, f, Call(f.(node := f.node.(payload := id), stage := Finish, waiting := 2),
                              Request(f.request.op, f.node.b, f.request.name)))
  {
    TailFrameOk(w, f, id);
    TailExpects(w, f, id);
    assert AwaitsRequest(w, TailFrame(f, id), TailRequest(f));
    TailLighter(f, id);
  }

  lemma TailLighter(f: Frame, id: nat)
    requires f.stage.TubeTail?
    ensures TailFrame(f, id).request == f.request && Weight(TailFrame(f, id)) < Weight(f)
  {
  }

  lemma TailExpects(w: World, f: Frame, id: nat)
    requires Resting(w, f) && f.stage.TubeTail? && f.waiting == 0
    ensures ExpectsAnswer(w, f.(node := f.node.(payload := id), stage := Finish, waiting := 2),
                          Request(f.request.op, f.node.b, f.request.name))
  {
    assert Child(f.node, 1) == f.node.b;
  }

  // ---- The stack ---------------------------------------------------------------------------

  lemma AwaitsStable(w: World, w': World, f: Frame, r: Request)
    requires AwaitsRequest(w, f, r) && Later(w, w') && WorldOk(w')
    ensures AwaitsRequest(w', f, r)
  {
    RequestStable(w, w', r);
    FrameStable(w, w', f, Goal(w, r));
    if !f.request.op.ForTerm? {
      ExpectsStable(w, w', f, BoneAt(w, r.term));
    }
  }

  /** Each frame waits for the one above it; the top one has the last answer. */
  ghost predicate Linked(w: World, frames: seq<Frame>, i: nat, result: nat)
    requires i < |frames| && result < |w.meaning|
  {
    true == if i + 1 < |frames| then AwaitsRequest(w, frames[i], frames[i + 1].request)
            else Answered(w, frames[i], result)
  }

  ghost predicate Running(w: World, frames: seq<Frame>, root: Request, result: nat) {
    && WorldOk(w) && RequestOk(w, root) && result < |w.nodes|
    && (forall i {:trigger Linked(w, frames, i, result)} :: 0 <= i < |frames| ==> Linked(w, frames, i, result))
    && (if frames == [] then Solves(w, root, result) else frames[0].request == root)
  }

  lemma LinkStable(w: World, w': World, frames: seq<Frame>, i: nat, result: nat)
    requires WorldOk(w) && Later(w, w') && WorldOk(w')
    requires i < |frames| && result < |w.meaning| && Linked(w, frames, i, result)
    ensures Linked(w', frames, i, result)
  {
    if i + 1 < |frames| {
      AwaitsStable(w, w', frames[i], frames[i + 1].request);
    } else {
      FrameStable(w, w', frames[i], w.meaning[result]);
      if !frames[i].request.op.ForTerm? {
        ExpectsStable(w, w', frames[i], BoneAt(w, result));
      }
    }
  }

  lemma SolvesStable(w: World, w': World, r: Request, h: nat)
    requires Solves(w, r, h) && Later(w, w') && WorldOk(w) && WorldOk(w')
    ensures Solves(w', r, h)
  {
    RequestStable(w, w', r);
  }

  lemma {:induction false} RunningStable(w: World, w': World, frames: seq<Frame>, root: Request, result: nat)
    requires Running(w, frames, root, result) && Later(w, w') && WorldOk(w')
    ensures Running(w', frames, root, result)
  {
    RequestStable(w, w', root);
    if frames == [] { SolvesStable(w, w', root, result); }
    forall i | 0 <= i < |frames| ensures Linked(w', frames, i, result) {
      assert Linked(w, frames, i, result);
      LinkStable(w, w', frames, i, result);
    }
  }

  /** What a turn of the loop starts from: the top frame with the answer filled in. */
  lemma TurnStarts(w: World, frames: seq<Frame>, root: Request, last: nat)
    requires frames != [] && Running(w, frames, root, last)
    ensures last < |w.nodes| == |w.meaning|
    ensures Answered(w, Filled(frames[|frames| - 1], last), last)
  {
    assert Linked(w, frames, |frames| - 1, last);
    FilledOk(w, frames[|frames| - 1], last);
  }

  /** A frame below the top waits for the same request as before. */
  lemma LinkKept(w: World, frames: seq<Frame>, next: seq<Frame>, i: nat, last: nat, result: nat)
    requires i + 1 < |frames| && i + 1 < |next| && last < |w.meaning| && result < |w.meaning|
    requires Linked(w, frames, i, last)
    requires next[i] == frames[i] && next[i + 1].request == frames[i + 1].request
    ensures Linked(w, next, i, result)
  {
  }

  /** The frame below the top gets its answer. */
  lemma LinkPopped(w: World, frames: seq<Frame>, rest: seq<Frame>, last: nat, result: nat)
    requires |frames| > 1 && rest == frames[..|frames| - 1] && last < |w.meaning|
    requires Linked(w, frames, |frames| - 2, last)
    requires Solves(w, frames[|frames| - 1].request, result)
    ensures Linked(w, rest, |rest| - 1, result)
  {
  }

  /** The frame that has the last answer. */
  lemma LinkAnswered(w: World, next: seq<Frame>, g: Frame, r: Request, result: nat)
    requires next != [] && next[|next| - 1] == g && AwaitsRequest(w, g, r) && Solves(w, r, result)
    ensures Linked(w, next, |next| - 1, result)
  {
  }

  lemma LinkSettled(w: World, next: seq<Frame>, g: Frame, result: nat)
    requires next != [] && next[|next| - 1] == g && Resting(w, g) && result < |w.meaning|
    ensures Linked(w, next, |next| - 1, result)
  {
    SettledOk(w, g, Absent, w.meaning[result]);
  }

  lemma LinkAwaits(w: World, next: seq<Frame>, i: nat, g: Frame, r: Request, result: nat)
    requires i + 1 < |next| && next[i] == g && next[i + 1].request == r && AwaitsRequest(w, g, r)
    requires result < |w.meaning|
    ensures Linked(w, next, i, result)
  {
  }

  /** The frames below the top, where they and the requests above them stay. */
  lemma {:induction false} BelowKept(w: World, frames: seq<Frame>, next: seq<Frame>, n: nat, root: Request, last: nat,
                                     result: nat)
    requires n < |frames| && n < |next| && Running(w, frames, root, last) && result < |w.meaning|
    requires next[..n] == frames[..n] && next[n].request == frames[n].request
    ensures forall i {:trigger Linked(w, next, i, result)} :: 0 <= i < n ==> Linked(w, next, i, result)
  {
    forall i | 0 <= i < n ensures Linked(w, next, i, result) {
      assert Linked(w, frames, i, last);
      assert next[i] == next[..n][i] && frames[i] == frames[..n][i];
      if i + 1 < n { assert next[i + 1] == next[..n][i + 1] && frames[i + 1] == frames[..n][i + 1]; }
      LinkKept(w, frames, next, i, last, result);
    }
  }

  /** The top frame has its answer: the one below takes it. */
  lemma TurnAnswers(w: World, frames: seq<Frame>, root: Request, last: nat, result: nat)
    requires frames != [] && Running(w, frames, root, last)
    requires Solves(w, frames[|frames| - 1].request, result)
    ensures Running(w, frames[..|frames| - 1], root, result)
  {
    var top := |frames| - 1;
    var rest := frames[..top];
    if top > 0 {
      assert Linked(w, frames, top - 1, last);
      LinkPopped(w, frames, rest, last, result);
      BelowKept(w, frames, rest, top - 1, root, last, result);
    }
  }

  /** The top frame moved on. */
  lemma TurnStays(w: World, frames: seq<Frame>, root: Request, last: nat, g: Frame)
    requires frames != [] && Running(w, frames, root, last)
    requires g.request == frames[|frames| - 1].request && Resting(w, g)
    ensures Running(w, frames[..|frames| - 1] + [g], root, last)
  {
    var next := frames[..|frames| - 1] + [g];
    LinkSettled(w, next, g, last);
    BelowKept(w, frames, next, |frames| - 1, root, last, last);
  }

  /** The top frame waits for a request that is answered already. */
  lemma TurnAnswered(w: World, frames: seq<Frame>, root: Request, last: nat, g: Frame, r: Request, result: nat)
    requires frames != [] && Running(w, frames, root, last)
    requires g.request == frames[|frames| - 1].request && AwaitsRequest(w, g, r)
    requires Solves(w, r, result)
    ensures Running(w, frames[..|frames| - 1] + [g], root, result)
  {
    var next := frames[..|frames| - 1] + [g];
    LinkAnswered(w, next, g, r, result);
    BelowKept(w, frames, next, |frames| - 1, root, last, result);
  }

  /** The top frame waits for a new one. */
  lemma TurnPushes(w: World, frames: seq<Frame>, root: Request, last: nat, g: Frame, frame: Frame)
    requires frames != [] && Running(w, frames, root, last)
    requires g.request == frames[|frames| - 1].request && AwaitsRequest(w, g, frame.request)
    requires Resting(w, frame)
    ensures Running(w, frames[..|frames| - 1] + [g, frame], root, last)
  {
    var top := |frames| - 1;
    var next := frames[..top] + [g, frame];
    LinkSettled(w, next, frame, last);
    LinkAwaits(w, next, top, g, frame.request, last);
    BelowKept(w, frames, next, top, root, last, last);
  }

  lemma RunningRoot(w: World, root: Frame)
    requires WorldOk(w) && FrameOk(w, root, Absent) && Settled(root)
    ensures Running(w, [root], root.request, 0)
  {
    SettledOk(w, root, Absent, w.meaning[0]);
  }

  function TopWeight(frames: seq<Frame>): nat { if frames == [] then 0 else Weight(frames[|frames| - 1]) }

  lemma CacheStable(w: World, w': World, f: Frame)
    requires CacheOk(w, f) && Later(w, w')
    ensures CacheOk(w', f)
  {
  }
}
