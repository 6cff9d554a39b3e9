/** term_substitution.c: capture-avoiding substitution for term names and dimensions,
    as one loop over an explicit stack of continuation frames. Renaming a binder is
    itself a substitution, run by the same loop. */
module Substitution {
  import opened Lattice
  import opened Nameless
  import opened FreeNames
  import opened Formulas
  import opened Intervals
  import opened Faces
  import opened TermStore
  import opened Store
  import opened Scans
  import opened Frames
  import opened SubstitutionLaws

  /** The most frames that the stack grows to. */
  const STACK := 16384

  ghost function WorldOf(k: Kernel): World
    reads k
  {
    World(k.nodes, k.meaning, k.formulas, k.bones)
  }

  /** The formula of a path application or a tube with a dimension replaced, interned. */
  method SubstituteFormula(k: Kernel, id: nat, kind: Kind, d: nat, value: seq<DimClause>) returns (replaced: nat)
    requires k.Valid() && !k.failed && 0 < id < |k.formulas| && d < DIMENSIONS && ListNormal(Interval, value)
    modifies k
    ensures k.Valid() && k.Grown() && k.nodes == old(k.nodes) && k.meaning == old(k.meaning)
    ensures !k.failed ==>
              && 0 < replaced < |k.formulas| && k.formulas[replaced].sort == k.formulas[id].sort
              && Lifted(k.formulas[replaced])
                 == Substituted(k.formulas[id].sort, Lifted(k.formulas[id]), Free(d), LiftedList(Interval, value))
  {
    var e := k.formulas[id];
    var sort := if kind == PAPP then Interval else Face;
    if e.sort != sort {
      k.Fail();
      return 0;
    }
    var run := if sort == Interval then IntervalSubstituteRun(e.list, d as Dim, value)
        else FaceSubstituteRun(e.list, d as Dim, value);
    if sort == Interval { IntervalSubstituteMeaning(e.list, d as Dim, value); } else {
      FaceSubstituteMeaning(e.list, d as Dim, value);
    }
    if run.Limit? {
      k.Fail();
      return 0;
    }
    replaced := k.Intern(sort, run.list);
    if k.failed { return 0; }
    LiftedSubstitution(sort, e.list, d as Dim, value, k.formulas[replaced].list);
  }

  // ---- Entry checks ----------------------------------------------------------------------

  /** A term substitution that needs no traversal is answered: an empty handle, a
      memoized result, a term without the name, or the variable itself. */
  method TermReady(k: Kernel, r: Request) returns (ready: bool, result: nat)
    requires k.Valid() && !k.failed && r.op.ForTerm? && RequestOk(WorldOf(k), r)
    modifies k`budget, k`failed, k.memo
    ensures k.Valid() && k.budget <= old(k.budget)
    ensures !k.failed && !ready ==> result < |k.nodes| && k.meaning[result] == Goal(WorldOf(k), r)
    ensures !k.failed && ready ==> k.budget < old(k.budget) && Resting(WorldOf(k), Root(r, 0, true))
  {
    var value := r.op.value;
    if r.term == 0 { return false, 0; }
    var found, cached := k.MemoGet(MEMO_TERM, r.term, r.name, value);
    var ok := k.Tick();
    if !ok { return false, 0; }
    if found { return false, cached; }
    var free := TermFree(k, r.term, r.name);
    if k.failed { return false, 0; }
    TermNodeOk(WorldOf(k), r.term);
    if !free {
      SubstTermAbsent(k.meaning[r.term], r.name, k.meaning[value]);
      k.MemoPut(MEMO_TERM, r.term, r.name, value, r.term);
      return false, r.term;
    }
    NodeNames(k.nodes, k.meaning, k.formulas, k.nodes[r.term]);
    if k.nodes[r.term].kind == VAR && k.nodes[r.term].payload == r.name {
      if value != 0 { k.MemoPut(MEMO_TERM, r.term, r.name, value, value); }
      return false, value;
    }
    RootOk(WorldOf(k), r, 0, true);
    return true, 0;
  }

  /** Whether the dimension occurs in the term. The value must be an interval
      expression. */
  method DimensionOccurs(k: Kernel, r: Request, sort: Sort) returns (occurs: bool)
    requires k.Valid() && !k.failed && r.op.ForDimension? && 0 < r.term < |k.nodes|
    modifies k`budget, k`failed, k`masks, k`known
    ensures k.Valid() && k.budget <= old(k.budget)
    ensures !k.failed ==> sort == Interval && r.name < DIMENSIONS && k.budget < old(k.budget)
    ensures !k.failed && !occurs ==> SubstDim(k.meaning[r.term], r.name, Value(r)) == k.meaning[r.term]
  {
    occurs := false;
    var ok := k.Tick();
    if !ok { return; }
    if r.name >= DIMENSIONS || sort != Interval {
      k.Fail();
      return;
    }
    var free := FreeDimensions(k, r.term);
    if k.failed { return; }
    if r.name !in free {
      ChildStandalone(k.nodes, k.meaning, k.formulas, r.term);
      FreeDimsAreFree(k.meaning[r.term], r.name);
      SubstDimAbsent(k.meaning[r.term], r.name, Value(r));
      return;
    }
    return true;
  }

  /** As for a term: an empty handle, a term without the dimension, or a memoized
      result. */
  method DimensionReady(k: Kernel, r: Request, sort: Sort) returns (ready: bool, result: nat, entry: nat)
    requires k.Valid() && !k.failed && r.op.ForDimension? && r.term < |k.nodes| && ListNormal(sort, r.op.list)
    modifies k
    ensures k.Valid() && k.Grown() && k.nodes == old(k.nodes) && k.meaning == old(k.meaning)
    ensures !k.failed && r.term != 0 ==> sort == Interval && r.name < DIMENSIONS
    ensures !k.failed && !ready ==>
              result < |k.nodes| && k.meaning[result] == SubstDim(k.meaning[r.term], r.name, Value(r))
              && k.bones[result] == k.bones[r.term]
    ensures !k.failed && ready ==>
              sort == Interval && k.budget < old(k.budget) && Resting(WorldOf(k), Root(r, entry, true))
  {
    ready, result, entry := false, 0, 0;
    if r.term == 0 { return; }
    var occurs := DimensionOccurs(k, r, sort);
    if k.failed { return; }
    if !occurs { return false, r.term, 0; }
    entry := k.Intern(Interval, r.op.list);
    if k.failed { return; }
    var found, cached := k.MemoGet(MEMO_DIMENSION, r.term, r.name, entry);
    if found { return false, cached, entry; }
    RootOk(WorldOf(k), r, entry, true);
    return true, 0, entry;
  }

  /** A request from a frame: answered at once, or a frame to push. */
  method Push(k: Kernel, r: Request, count: nat) returns (pushed: bool, frame: Frame, result: nat)
    requires k.Valid() && !k.failed && RequestOk(WorldOf(k), r) && count <= STACK
    modifies k, k.memo
    ensures k.Valid() && k.Grown()
    ensures !k.failed && !pushed ==> Solves(WorldOf(k), r, result)
    ensures !k.failed && pushed ==>
              k.budget < old(k.budget) && frame.request == r && count < STACK && Resting(WorldOf(k), frame)
  {
    var ready, entry := true, 0;
    if r.op.ForTerm? {
      ready, result := TermReady(k, r);
    } else if r.op.ForDimension? {
      ready, result, entry := DimensionReady(k, r, Interval);
    } else if r.term == 0 {
      ready, result := false, 0;
    } else {
      var ok := k.Tick();
      result := 0;
      if ok { RootOk(WorldOf(k), r, 0, false); }
    }
    frame := Root(r, entry, !r.op.ForTubes?);
    pushed := false;
    if !ready || k.failed { return; }
    if count == STACK {
      k.Fail();
      return;
    }
    pushed := true;
  }

  // ---- The stages ------------------------------------------------------------------------

  /** The dimensions that a binder of the frame's node would capture, where it
      captures any. */
  method Capturing(k: Kernel, f: Frame) returns (captured: bool, dims: set<nat>)
    requires k.Valid() && !k.failed && f.stage.Prepare? && Resting(WorldOf(k), f) && !f.request.op.ForTubes?
    modifies k`budget, k`failed, k`masks, k`known
    ensures k.Valid() && k.budget <= old(k.budget)
    ensures !k.failed && !captured ==> DimSafe(WorldOf(k), Prepared(WorldOf(k), f))
    ensures !k.failed && captured ==>
              && DimBinder(k.nodes[f.request.term].kind) && k.nodes[f.request.term].payload < DIMENSIONS
              && dims == ValueDims(WorldOf(k), f.request)
  {
    var r, n := f.request, k.nodes[f.request.term];
    captured, dims := false, {};
    if r.op.ForDimension? && DimBinder(n.kind) && n.payload >= DIMENSIONS {
      k.Fail();
      return;
    }
    if DimBinder(n.kind) && n.payload < DIMENSIONS {
      if r.op.ForTerm? {
        dims := FreeDimensions(k, r.op.value);
        if k.failed { return; }
      } else {
        dims := ListNames(r.op.list);
      }
      captured := Captures(f, n, dims);
    } else if r.op.ForTerm? {
      DimsNative(k.meaning, k.symbols, k.masks, k.known, r.op.value);
    }
    if !captured { PrepareSafe(WorldOf(k), f); }
  }

  method PrepareStage(k: Kernel, f: Frame) returns (move: Move)
    requires k.Valid() && !k.failed && f.stage.Prepare? && Resting(WorldOf(k), f)
    modifies k
    ensures k.Valid() && k.Grown()
    ensures !k.failed ==> MoveOk(WorldOf(k), f, move)
  {
    var r := f.request;
    var n := k.nodes[r.term];
    move := Answer(0);
    if r.op.ForTubes? {
      PrepareTubes(WorldOf(k), f);
      return TubesMove(f, n);
    }
    var captured, dims := Capturing(k, f);
    if k.failed { return; }
    if captured {
      move := SpareStage(k, f, dims);
      return;
    }
    PrepareKept(WorldOf(k), f);
    return KeptMove(f, n);
  }

  method SpareStage(k: Kernel, f: Frame, dims: set<nat>) returns (move: Move)
    requires k.Valid() && !k.failed && f.stage.Prepare? && Resting(WorldOf(k), f)
    requires !f.request.op.ForTubes? && dims == ValueDims(WorldOf(k), f.request)
    requires DimBinder(k.nodes[f.request.term].kind) && k.nodes[f.request.term].payload < DIMENSIONS
    modifies k
    ensures k.Valid() && k.Grown()
    ensures !k.failed ==> MoveOk(WorldOf(k), f, move)
  {
    ghost var was := WorldOf(k);
    var n := k.nodes[f.request.term];
    move := Answer(0);
    var spare, renaming := SpareDimension(k, f.request, n.payload, dims);
    if k.failed { return; }
    FrameStable(was, WorldOf(k), f, Absent);
    PrepareRenaming(WorldOf(k), f, spare, renaming);
    return SpareMove(f, n, spare, renaming);
  }

  /** The binder would capture: a dimension that neither the term nor the value has
      takes its place. */
  method SpareDimension(k: Kernel, r: Request, bound: nat, dims: set<nat>)
    returns (spare: nat, renaming: seq<DimClause>)
    requires k.Valid() && !k.failed && r.term < |k.nodes|
    modifies k
    ensures k.Valid() && k.Grown() && k.nodes == old(k.nodes) && k.meaning == old(k.meaning)
    ensures !k.failed ==>
              && spare < DIMENSIONS && spare !in FreeDims(k.meaning[r.term]) && spare !in dims && spare != bound
              && (r.op.ForDimension? ==> spare != r.name)
              && ListNormal(Interval, renaming) && LiftedList(Interval, renaming) == Dimension(spare)
  {
    spare, renaming := 0, [];
    var mine := FreeDimensions(k, r.term);
    if k.failed { return; }
    spare := k.FreshDimension(mine + dims + {bound} + if r.op.ForDimension? then {r.name} else {});
    if k.failed { return; }
    var variable: DimClause := Clause({spare as Dim}, {});
    var id := k.Intern(Interval, [variable]);
    if k.failed { return; }
    renaming := k.formulas[id].list;
    LiftedGenerator(spare as Dim);
  }

  /** Whether the term binder of the frame's node would capture. */
  method BodyCaptures(k: Kernel, f: Frame) returns (captured: bool)
    requires k.Valid() && !k.failed && RequestOk(WorldOf(k), f.request)
    modifies k`budget, k`failed, k.memo
    ensures k.Valid() && k.budget <= old(k.budget)
    ensures !k.failed && captured ==> f.request.op.ForTerm? && TermBinder(f.node.kind)
    ensures !k.failed && !captured ==>
              (f.request.op.ForTerm? && TermBinder(f.node.kind) && f.node.payload != f.request.name ==>
                 f.node.payload !in FreeTerms(k.meaning[f.request.op.value]))
  {
    if !f.request.op.ForTerm? || !TermBinder(f.node.kind) || f.node.payload == f.request.name { return false; }
    captured := TermFree(k, f.request.op.value, f.node.payload);
  }

  method RenameTermStage(k: Kernel, f: Frame) returns (move: Move)
    requires k.Valid() && !k.failed && f.stage.RenameTerm? && Resting(WorldOf(k), f)
    modifies k, k.memo
    ensures k.Valid() && k.Grown()
    ensures !k.failed ==> MoveOk(WorldOf(k), f, move)
  {
    move := Answer(0);
    var captured := BodyCaptures(k, f);
    if k.failed { return; }
    if captured {
      move := SpareSymbol(k, f);
    } else if f.request.op.ForDimension? && f.node.kind == TUBE {
      DelegateTubes(WorldOf(k), f);
      move := DelegateMove(f);
    } else {
      IntoMoveOk(WorldOf(k), f);
      move := IntoMove(f);
    }
  }

  /** A variable that no term mentions. */
  method SpareVariable(k: Kernel) returns (spare: nat, v: nat)
    requires k.Valid() && !k.failed
    modifies k
    ensures k.Valid() && k.Grown()
    ensures !k.failed ==> v < |k.nodes| && k.meaning[v] == Variable(Free(spare))
    ensures !k.failed ==> forall h :: 0 <= h < |old(k.meaning)| ==> spare !in FreeTerms(old(k.meaning)[h])
  {
    v := 0;
    spare := k.FreshSymbol();
    if k.failed { return; }
    v := k.Make(Syntax(VAR, spare, 0, 0, 0));
  }

  method SpareSymbol(k: Kernel, f: Frame) returns (move: Move)
    requires k.Valid() && !k.failed && f.stage.RenameTerm? && Resting(WorldOf(k), f)
    requires f.request.op.ForTerm? && TermBinder(f.node.kind)
    modifies k
    ensures k.Valid() && k.Grown()
    ensures !k.failed ==> MoveOk(WorldOf(k), f, move)
  {
    ghost var was := WorldOf(k);
    move := Answer(0);
    var spare, v := SpareVariable(k);
    if k.failed { return; }
    SpareOk(was, WorldOf(k), f, spare, v);
    return Call(f.(spare := spare, stage := AfterRenameTerm, waiting := 2),
                Request(ForTerm(v), f.node.b, f.node.payload));
  }

  method TubeTailStage(k: Kernel, f: Frame) returns (move: Move)
    requires k.Valid() && !k.failed && f.stage.TubeTail? && f.waiting == 0 && Resting(WorldOf(k), f)
    modifies k
    ensures k.Valid() && k.Grown()
    ensures !k.failed ==> MoveOk(WorldOf(k), f, move)
  {
    ghost var was := WorldOf(k);
    move := Answer(0);
    var id := f.node.payload;
    if f.request.op.faces {
      id := SubstituteFormula(k, id, TUBE, f.request.name, f.request.op.list);
      if k.failed { return; }
      ReplacedTag(was, f, WorldOf(k), id);
    }
    FrameStable(was, WorldOf(k), f, Absent);
    TailMove(WorldOf(k), f, id);
    return Call(f.(node := f.node.(payload := id), stage := Finish, waiting := 2),
                Request(f.request.op, f.node.b, f.request.name));
  }

  /** The rebuilt node, with a path application's formula replaced. */
  method FinishFormula(k: Kernel, f: Frame) returns (n: Syntax)
    requires k.Valid() && !k.failed && f.stage.Finish? && f.waiting == 0 && Resting(WorldOf(k), f)
    modifies k
    ensures k.Valid() && k.Grown()
    ensures !k.failed ==> Finished(WorldOf(k), f, n)
  {
    ghost var was := WorldOf(k);
    n := f.node;
    if f.request.op.ForDimension? && n.kind == PAPP {
      var id := SubstituteFormula(k, n.payload, PAPP, f.request.name, f.request.op.list);
      if k.failed { return; }
      FinishApplication(was, f, WorldOf(k), id);
      n := n.(payload := id);
    } else {
      FinishNode(was, f);
    }
  }

  /** The answer: the original node where nothing changed. */
  method BuildAnswer(k: Kernel, f: Frame, n: Syntax) returns (h: nat)
    requires k.Valid() && !k.failed && Finished(WorldOf(k), f, n)
    modifies k
    ensures k.Valid() && k.Grown()
    ensures !k.failed ==> Solves(WorldOf(k), f.request, h)
  {
    ghost var now := WorldOf(k);
    h := f.request.term;
    if f.request.op.ForTubes? || n != k.nodes[h] {
      h := k.Make(n);
      if k.failed { return; }
    }
    FinishedSolves(now, f, n, WorldOf(k), h);
  }

  method FinishStage(k: Kernel, f: Frame) returns (move: Move)
    requires k.Valid() && !k.failed && f.stage.Finish? && f.waiting == 0 && Resting(WorldOf(k), f)
    modifies k
    ensures k.Valid() && k.Grown()
    ensures !k.failed ==> MoveOk(WorldOf(k), f, move)
  {
    move := Answer(0);
    var n := FinishFormula(k, f);
    if k.failed { return; }
    var h := BuildAnswer(k, f, n);
    move := Answer(h);
  }

  method Advance(k: Kernel, f: Frame, result: nat) returns (move: Move)
    requires k.Valid() && !k.failed && result < |k.nodes| && f.waiting == 0 && Answered(WorldOf(k), f, result)
    modifies k, k.memo
    ensures k.Valid() && k.Grown()
    ensures !k.failed ==> MoveOk(WorldOf(k), f, move)
  {
    if f.stage.Delegated? { return Answer(result); }
    SettledOk(WorldOf(k), f, k.meaning[result], Absent);
    if Local(f.stage) {
      LocalMoveOk(WorldOf(k), f);
      return LocalMove(f);
    }
    match f.stage
    case Prepare => move := PrepareStage(k, f);
    case RenameTerm => move := RenameTermStage(k, f);
    case TubeTail => move := TubeTailStage(k, f);
    case Finish => move := FinishStage(k, f);
  }

  // ---- The loop ----------------------------------------------------------------------------

  method Remember(k: Kernel, f: Frame, result: nat)
    requires k.Valid() && result < |k.nodes| && RequestOk(WorldOf(k), f.request) && CacheOk(WorldOf(k), f)
    requires !k.failed ==> Solves(WorldOf(k), f.request, result)
    modifies k.memo
    ensures k.Valid()
  {
    var r := f.request;
    if result == 0 || !f.cache { return; }
    if r.op.ForTerm? {
      k.MemoPut(MEMO_TERM, r.term, r.name, r.op.value, result);
    } else {
      k.MemoPut(MEMO_DIMENSION, r.term, r.name, f.entry, result);
    }
  }

  /** One turn of the loop, for the top frame. */
  method Step(k: Kernel, frames: seq<Frame>, ghost root: Request, last: nat)
    returns (next: seq<Frame>, result: nat)
    requires k.Valid() && !k.failed && 0 < |frames| <= STACK && Running(WorldOf(k), frames, root, last)
    modifies k, k.memo
    ensures k.Valid() && k.Grown()
    ensures |next| <= STACK && (!k.failed ==> Running(WorldOf(k), next, root, result))
    ensures !k.failed ==>
              k.budget < old(k.budget) || |next| < |frames|
                  || (|next| == |frames| && TopWeight(next) < TopWeight(frames))
  {
    ghost var was := WorldOf(k);
    var f := Filled(frames[|frames| - 1], last);
    TurnStarts(was, frames, root, last);
    next, result := [], last;
    var move := Advance(k, f, last);
    if k.failed { return; }
    RunningStable(was, WorldOf(k), frames, root, last);
    CacheStable(was, WorldOf(k), f);
    next, result := Follow(k, frames, f, move, root, last);
  }

  method Follow(k: Kernel, frames: seq<Frame>, f: Frame, move: Move, ghost root: Request, last: nat)
    returns (next: seq<Frame>, result: nat)
    requires k.Valid() && !k.failed && 0 < |frames| <= STACK && Running(WorldOf(k), frames, root, last)
    requires f.request == frames[|frames| - 1].request && Weight(f) == Weight(frames[|frames| - 1])
    requires MoveOk(WorldOf(k), f, move) && CacheOk(WorldOf(k), f)
    modifies k, k.memo
    ensures k.Valid() && k.Grown()
    ensures |next| <= STACK && (!k.failed ==> Running(WorldOf(k), next, root, result))
    ensures !k.failed ==>
              k.budget < old(k.budget) || |next| < |frames|
                  || (|next| == |frames| && TopWeight(next) < TopWeight(frames))
  {
    match move
    case Answer(h) =>
      Remember(k, f, h);
      TurnAnswers(WorldOf(k), frames, root, last, h);
      return frames[..|frames| - 1], h;
    case Stay(g) =>
      TurnStays(WorldOf(k), frames, root, last, g);
      return frames[..|frames| - 1] + [g], last;
    case Call(g, r) =>
      next, result := Ask(k, frames, g, r, root, last);
  }

  /** A frame's request: answered at once, or by a frame above it. */
  method Ask(k: Kernel, frames: seq<Frame>, g: Frame, r: Request, ghost root: Request, last: nat)
    returns (next: seq<Frame>, result: nat)
    requires k.Valid() && !k.failed && 0 < |frames| <= STACK && Running(WorldOf(k), frames, root, last)
    requires g.request == frames[|frames| - 1].request && AwaitsRequest(WorldOf(k), g, r)
    modifies k, k.memo
    ensures k.Valid() && k.Grown()
    ensures |next| <= STACK && (!k.failed ==> Running(WorldOf(k), next, root, result))
    ensures !k.failed ==> k.budget < old(k.budget) || next == frames[..|frames| - 1] + [g]
  {
    ghost var was := WorldOf(k);
    next := frames[..|frames| - 1] + [g];
    var pushed, frame, answer := Push(k, r, |frames|);
    result := answer;
    if k.failed { return; }
    RunningStable(was, WorldOf(k), frames, root, last);
    AwaitsStable(was, WorldOf(k), g, r);
    if !pushed {
      TurnAnswered(WorldOf(k), frames, root, last, g, r, result);
      return;
    }
    TurnPushes(WorldOf(k), frames, root, last, g, frame);
    return frames[..|frames| - 1] + [g, frame], last;
  }

  method Traverse(k: Kernel, root: Frame) returns (result: nat)
    requires k.Valid() && !k.failed && Resting(WorldOf(k), root)
    modifies k, k.memo
    ensures k.Valid() && k.Grown()
    ensures !k.failed ==> Solves(WorldOf(k), root.request, result)
    ensures k.failed ==> result == 0
  {
    RunningRoot(WorldOf(k), root);
    var frames := [root];
    result := 0;
    while frames != [] && !k.failed
      invariant k.Valid() && k.Grown() && |frames| <= STACK
      invariant !k.failed ==> Running(WorldOf(k), frames, root.request, result)
      decreases k.budget, !k.failed, |frames|, TopWeight(frames)
    {
      frames, result := Step(k, frames, root.request, result);
    }
    if k.failed { result := 0; }
  }

  /** `term` with the variable `name` replaced by `value`, whatever the memo holds: the
      nameless form of the answer is the substituted nameless form, so no binder of the
      term has captured a name or a dimension of the value. */
  method Substitute(k: Kernel, term: nat, name: nat, value: nat) returns (result: nat)
    requires k.Valid() && term < |k.nodes| && value < |k.nodes|
    modifies k, k.memo
    ensures k.Valid() && k.Grown()
    ensures !k.failed ==> result < |k.nodes| && k.meaning[result] == SubstTerm(k.meaning[term], name, k.meaning[value])
    ensures k.failed ==> result == 0
  {
    if k.failed { return 0; }
    var r := Request(ForTerm(value), term, name);
    var ready, answer := TermReady(k, r);
    if k.failed { return 0; }
    if !ready { return answer; }
    result := Traverse(k, Root(r, 0, true));
  }

  /** `term` with the dimension `d` replaced by an interval expression. */
  method DimensionSubstitute(k: Kernel, term: nat, d: nat, value: FormulaEntry) returns (result: nat)
    requires k.Valid() && term < |k.nodes| && ListNormal(value.sort, value.list)
    modifies k, k.memo
    ensures k.Valid() && k.Grown()
    ensures !k.failed && term != 0 ==> value.sort == Interval && d < DIMENSIONS
    ensures !k.failed ==>
              result < |k.nodes| && k.meaning[result] == SubstDim(k.meaning[term], d, LiftedList(Interval, value.list))
    ensures !k.failed ==>
              FormMoves(k.meaning[term], k.meaning[result], Replacing(d, LiftedList(Interval, value.list)))
    ensures k.failed ==> result == 0
  {
    SubstDimMoves(k.meaning[term], d, LiftedList(Interval, value.list));
    if k.failed { return 0; }
    var r := Request(ForDimension(value.list), term, d);
    var ready, answer, entry := DimensionReady(k, r, value.sort);
    if k.failed { return 0; }
    if !ready { return answer; }
    result := Traverse(k, Root(r, entry, true));
  }

  // ---- Endpoints and faces -----------------------------------------------------------------

  method EndpointTerm(k: Kernel, term: nat, d: nat, endpoint: bool) returns (result: nat)
    requires k.Valid() && term < |k.nodes| && d < DIMENSIONS
    modifies k, k.memo
    ensures k.Valid() && k.Grown()
    ensures !k.failed ==> result < |k.nodes| && k.meaning[result] == AtEnd(k.meaning[term], d, endpoint)
    ensures !k.failed ==> FormMoves(k.meaning[term], k.meaning[result], Ending(d, endpoint))
    ensures k.failed ==> result == 0
  {
    AtEndMoves(k.meaning[term], d, endpoint);
    var list: seq<DimClause> := if endpoint then [Top()] else [];
    result := DimensionSubstitute(k, term, d, FormulaEntry(Interval, list));
    LiftedEnd(endpoint);
  }

  lemma LiftedEnd(endpoint: bool)
    ensures var list: seq<DimClause> := if endpoint then [Top()] else [];
            ListNormal(Interval, list) && LiftedList(Interval, list) == End(endpoint)
  {
    var list: seq<DimClause> := if endpoint then [Top()] else [];
    if endpoint {
      assert SetOf(list) == {Top()};
      assert RenamedClause(Top(), LiftDim) == Top();
      assert RenamedClauses({Top()}, LiftDim) == {Top()};
      assert Reduce<Atom>(Interval, {Top()}) == {Top()};
    } else {
      assert SetOf(list) == {};
      assert RenamedClauses({}, LiftDim) == {};
    }
  }

  /** A term restricted to a face: every dimension that the face fixes, at its endpoint. */
  method Restrict(k: Kernel, term: nat, face: Clause<nat>) returns (result: nat)
    requires k.Valid() && term < |k.nodes|
    modifies k, k.memo
    ensures k.Valid() && k.Grown()
    ensures !k.failed ==> result < |k.nodes| && k.meaning[result] == Restricted(k.meaning[term], face, DIMENSIONS)
    ensures !k.failed ==> FormMoves(k.meaning[term], k.meaning[result], Facing(face, DIMENSIONS))
  {
    RestrictedMoves(k.meaning[term], face, DIMENSIONS);
    result := term;
    var d := 0;
    while d < DIMENSIONS
      invariant k.Valid() && k.Grown() && d <= DIMENSIONS && result < |k.nodes|
      invariant !k.failed ==> k.meaning[result] == Restricted(k.meaning[term], face, d)
    {
      if d in face.positive { result := EndpointTerm(k, result, d, true); }
      if d in face.negative { result := EndpointTerm(k, result, d, false); }
      d := d + 1;
    }
  }
}
