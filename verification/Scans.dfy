/** term_substitution.c: the two dependency scans, as explicit worklists. The scan for
    a term name is pruned by the symbol filter and memoized; the dimension scan refines
    each node's mask in place and never revisits a node whose mask is known. */
module Scans {
  import opened Lattice
  import opened Nameless
  import opened FreeNames
  import opened Formulas
  import opened TermStore
  import opened Store

  // ---- Is a term name free? ---------------------------------------------------------------

  /** A node under scan: `next` children have been taken up, and the last of them is
      still awaited if `waiting`. */
  datatype TermFrame = TermFrame(term: nat, next: nat, started: bool, waiting: bool)

  predicate Shadows(n: Syntax, i: nat, name: nat) { i == 1 && TermBinder(n.kind) && n.payload == name }

  ghost predicate FreeIn(meaning: seq<Form>, n: Syntax, i: nat, name: nat)
    requires i < 3 && Child(n, i) < |meaning|
  {
    !Shadows(n, i, name) && name in FreeTerms(meaning[Child(n, i)])
  }

  ghost predicate FreeFrom(meaning: seq<Form>, n: Syntax, i: nat, name: nat)
    requires n.a < |meaning| && n.b < |meaning| && n.c < |meaning|
  {
    || (i <= 0 && FreeIn(meaning, n, 0, name))
    || (i <= 1 && FreeIn(meaning, n, 1, name))
    || (i <= 2 && FreeIn(meaning, n, 2, name))
  }

  /** What is known of a frame's answer, given its awaited child's. */
  ghost predicate TermFrameOk(nodes: seq<Syntax>, meaning: seq<Form>, formulas: seq<FormulaEntry>, name: nat,
                              f: TermFrame, answer: bool)
    requires GraphOk(nodes, meaning, formulas)
  {
    && f.term < |nodes|
    && (if !f.started then f.next == 0 && !f.waiting
        else f.term > 0 && HandleOk(nodes, meaning, formulas, f.term) && nodes[f.term].kind != VAR
             && f.next <= Arity(nodes[f.term].kind) && (f.waiting ==> f.next > 0)
             && (name in FreeTerms(meaning[f.term]) <==>
                   (f.waiting && answer) || FreeFrom(meaning, nodes[f.term], f.next, name)))
  }

  ghost predicate Awaits(nodes: seq<Syntax>, f: TermFrame, child: nat) {
    f.started && f.waiting && 0 < f.next <= 3 && f.term < |nodes| && child == Child(nodes[f.term], f.next - 1)
  }

  ghost predicate TermStackOk(nodes: seq<Syntax>, meaning: seq<Form>, formulas: seq<FormulaEntry>, name: nat,
                              frames: seq<TermFrame>, root: nat, result: bool)
    requires GraphOk(nodes, meaning, formulas) && root < |nodes|
  {
    && (forall i :: 0 <= i < |frames| ==>
          frames[i].term < |nodes| && Depth(nodes, frames[i].term) + i <= Depth(nodes, root))
    && (forall i :: 0 <= i < |frames| - 1 ==>
          && Awaits(nodes, frames[i], frames[i + 1].term)
          && TermFrameOk(nodes, meaning, formulas, name, frames[i], name in FreeTerms(meaning[frames[i + 1].term])))
    && (frames != [] ==>
          frames[0].term == root && TermFrameOk(nodes, meaning, formulas, name, frames[|frames| - 1], result))
    && (frames == [] ==> result == (name in FreeTerms(meaning[root])))
  }

  function TermWeight(frames: seq<TermFrame>): nat {
    if frames == [] then 0 else
    var f := frames[|frames| - 1];
    TermWeight(frames[..|frames| - 1]) + if f.started && f.next <= 3 then 1 + 2 * (3 - f.next) else 1
  }

  lemma {:induction false} TermPopped(nodes: seq<Syntax>, meaning: seq<Form>, formulas: seq<FormulaEntry>, name: nat,
                   frames: seq<TermFrame>, root: nat, was: bool, result: bool)
    requires GraphOk(nodes, meaning, formulas) && root < |nodes| && frames != []
    requires TermStackOk(nodes, meaning, formulas, name, frames, root, was)
    requires result == (name in FreeTerms(meaning[frames[|frames| - 1].term]))
    ensures TermStackOk(nodes, meaning, formulas, name, frames[..|frames| - 1], root, result)
    ensures TermWeight(frames[..|frames| - 1]) < TermWeight(frames)
  {
  }

  lemma {:induction false} TermReplaced(nodes: seq<Syntax>, meaning: seq<Form>, formulas: seq<FormulaEntry>, name: nat,
                     frames: seq<TermFrame>, root: nat, was: bool, f: TermFrame, result: bool)
    requires GraphOk(nodes, meaning, formulas) && root < |nodes| && frames != []
    requires TermStackOk(nodes, meaning, formulas, name, frames, root, was)
    requires f.term == frames[|frames| - 1].term && TermFrameOk(nodes, meaning, formulas, name, f, result)
    ensures TermStackOk(nodes, meaning, formulas, name, frames[..|frames| - 1] + [f], root, result)
  {
  }

  lemma {:induction false} TermPushed(nodes: seq<Syntax>, meaning: seq<Form>, formulas: seq<FormulaEntry>, name: nat,
                   frames: seq<TermFrame>, root: nat, was: bool, f: TermFrame, child: nat, result: bool)
    requires GraphOk(nodes, meaning, formulas) && root < |nodes| && frames != []
    requires TermStackOk(nodes, meaning, formulas, name, frames, root, was)
    requires f.term == frames[|frames| - 1].term && Awaits(nodes, f, child) && child < |nodes|
    requires TermFrameOk(nodes, meaning, formulas, name, f, name in FreeTerms(meaning[child]))
    ensures TermStackOk(nodes, meaning, formulas, name,
              frames[..|frames| - 1] + [f, TermFrame(child, 0, false, false)], root, result)
  {
    var next := frames[..|frames| - 1] + [f, TermFrame(child, 0, false, false)];
    assert HandleOk(nodes, meaning, formulas, f.term) && Depth(nodes, child) < Depth(nodes, f.term);
    forall i | 0 <= i < |next| ensures next[i].term < |nodes| && Depth(nodes, next[i].term) + i <= Depth(nodes, root) {
      if i < |frames| { assert next[i].term == frames[i].term; }
    }
    forall i | 0 <= i < |next| - 1
      ensures Awaits(nodes, next[i], next[i + 1].term)
      ensures TermFrameOk(nodes, meaning, formulas, name, next[i], name in FreeTerms(meaning[next[i + 1].term]))
    {
      if i < |frames| - 1 { assert next[i] == frames[i] && next[i + 1].term == frames[i + 1].term; }
    }
  }

  /** Starts a frame, or answers it at once by the filter, the memo or a leaf. */
  method TermStart(k: Kernel, f: TermFrame, name: nat) returns (done: bool, result: bool, g: TermFrame)
    requires k.Valid() && !k.failed && f.term < |k.nodes| && !f.started && f.next == 0 && !f.waiting
    modifies k`budget, k`failed, k.memo
    ensures k.Valid() && k.budget <= old(k.budget)
    ensures done && !k.failed ==> result == (name in FreeTerms(k.meaning[f.term]))
    ensures !done && !k.failed ==>
              g == TermFrame(f.term, 0, true, false) && k.budget < old(k.budget)
              && TermFrameOk(k.nodes, k.meaning, k.formulas, name, g, false)
  {
    g := f;
    if f.term != 0 && name % FILTER !in k.symbols[f.term] { return true, false, f; }
    var found, cached := k.MemoGet(MEMO_FREE, f.term, name, 0);
    if found { return true, cached != 0, f; }
    if f.term == 0 {
      k.MemoPut(MEMO_FREE, 0, name, 0, 0);
      return true, false, f;
    }
    var ok := k.Tick();
    if !ok { return true, false, f; }
    assert HandleOk(k.nodes, k.meaning, k.formulas, f.term);
    NodeNames(k.nodes, k.meaning, k.formulas, k.nodes[f.term]);
    if k.nodes[f.term].kind == VAR {
      result := k.nodes[f.term].payload == name;
      k.MemoPut(MEMO_FREE, f.term, name, 0, if result then 1 else 0);
      return true, result, f;
    }
    return false, false, TermFrame(f.term, 0, true, false);
  }

  /** One step of a started frame: an answer, or the next child to visit. */
  method TermVisit(k: Kernel, f: TermFrame, name: nat, answer: bool)
    returns (done: bool, result: bool, g: TermFrame, child: nat, push: bool)
    requires k.Valid() && !k.failed && f.started && TermFrameOk(k.nodes, k.meaning, k.formulas, name, f, answer)
    modifies k.memo
    ensures k.Valid()
    ensures done ==> result == (name in FreeTerms(k.meaning[f.term]))
    ensures !done ==> g.term == f.term && g.started && g.next == f.next + 1 <= 3
    ensures !done && !push ==> TermFrameOk(k.nodes, k.meaning, k.formulas, name, g, answer)
    ensures !done && push ==>
              && Awaits(k.nodes, g, child) && child < |k.nodes|
              && TermFrameOk(k.nodes, k.meaning, k.formulas, name, g, name in FreeTerms(k.meaning[child]))
  {
    var n := k.nodes[f.term];
    g, child, push := f, 0, false;
    if f.waiting && answer {
      k.MemoPut(MEMO_FREE, f.term, name, 0, 1);
      return true, true, g, child, push;
    }
    if f.next == Arity(n.kind) {
      k.MemoPut(MEMO_FREE, f.term, name, 0, 0);
      return true, false, g, child, push;
    }
    var i := f.next;
    done, result := false, false;
    if Shadows(n, i, name) {
      g := TermFrame(f.term, i + 1, true, false);
      return;
    }
    g, child, push := TermFrame(f.term, i + 1, true, true), Child(n, i), true;
  }

  lemma {:induction false} TermWeightUpdate(frames: seq<TermFrame>, f: TermFrame, g: TermFrame, child: nat)
    requires frames != [] && f == frames[|frames| - 1] && f.started && g.started && g.next == f.next + 1 <= 3
    ensures TermWeight(frames[..|frames| - 1] + [g]) < TermWeight(frames)
    ensures TermWeight(frames[..|frames| - 1] + [g, TermFrame(child, 0, false, false)]) < TermWeight(frames)
  {
    var rest := frames[..|frames| - 1];
    var pushed := rest + [g, TermFrame(child, 0, false, false)];
    assert (rest + [g])[..|rest|] == rest;
    assert pushed[..|rest| + 1] == rest + [g];
  }

  method TermStep(k: Kernel, frames: seq<TermFrame>, name: nat, ghost root: nat, result: bool)
    returns (next: seq<TermFrame>, answer: bool)
    requires k.Valid() && !k.failed && frames != [] && root < |k.nodes|
    requires TermStackOk(k.nodes, k.meaning, k.formulas, name, frames, root, result)
    modifies k`budget, k`failed, k.memo
    ensures k.Valid() && k.budget <= old(k.budget)
    ensures !k.failed ==> TermStackOk(k.nodes, k.meaning, k.formulas, name, next, root, answer)
    ensures !k.failed ==> k.budget < old(k.budget) || TermWeight(next) < TermWeight(frames)
    ensures !k.failed ==> |next| <= Depth(k.nodes, root) + 1
  {
    var top := |frames| - 1;
    var f := frames[top];
    var done, g, child, push;
    if !f.started {
      done, answer, g := TermStart(k, f, name);
      next := frames[..top] + if done then [] else [g];
      if k.failed { return; }
      if done {
        TermPopped(k.nodes, k.meaning, k.formulas, name, frames, root, result, answer);
        assert next == frames[..top];
      } else {
        TermReplaced(k.nodes, k.meaning, k.formulas, name, frames, root, result, g, answer);
      }
      return;
    }
    done, answer, g, child, push := TermVisit(k, f, name, result);
    if done {
      TermPopped(k.nodes, k.meaning, k.formulas, name, frames, root, result, answer);
      return frames[..top], answer;
    }
    TermWeightUpdate(frames, f, g, child);
    answer := result;
    if push {
      TermPushed(k.nodes, k.meaning, k.formulas, name, frames, root, result, g, child, answer);
      return frames[..top] + [g, TermFrame(child, 0, false, false)], answer;
    }
    TermReplaced(k.nodes, k.meaning, k.formulas, name, frames, root, result, g, answer);
    return frames[..top] + [g], answer;
  }

  /** Whether a symbol is free in a term, exactly, for any earlier contents of the memo.
      The stack fits the depth that the term records, and one frame more. */
  method TermFree(k: Kernel, term: nat, name: nat) returns (free: bool)
    requires k.Valid() && term < |k.nodes|
    modifies k`budget, k`failed, k.memo
    ensures k.Valid() && k.budget <= old(k.budget) && (old(k.failed) ==> k.failed)
    ensures !k.failed ==> free == (name in FreeTerms(k.meaning[term]))
    ensures k.failed ==> !free
  {
    var frames := [TermFrame(term, 0, false, false)];
    var result := false;
    while frames != [] && !k.failed
      invariant k.Valid() && k.budget <= old(k.budget) && (old(k.failed) ==> k.failed)
      invariant !k.failed ==> TermStackOk(k.nodes, k.meaning, k.formulas, name, frames, term, result)
      invariant !k.failed ==> |frames| <= Depth(k.nodes, term) + 1
      decreases k.budget, !k.failed, TermWeight(frames)
    {
      frames, result := TermStep(k, frames, name, term, result);
    }
    return !k.failed && result;
  }

  // ---- Which dimensions are free? ---------------------------------------------------------

  /** A node under scan: the names collected so far, and for a composition at its
      second child the tube to look at next. */
  datatype DimFrame = DimFrame(term: nat, tube: nat, next: nat, started: bool, result: set<nat>)

  predicate ScansTubes(n: Syntax, i: nat) { i == 1 && BindsTubes(n.kind) && n.payload < DIMENSIONS }

  /** The dimensions that a frame has still to collect. */
  ghost function Remaining(meaning: seq<Form>, n: Syntax, f: DimFrame): set<nat>
    requires n.a < |meaning| && n.b < |meaning| && n.c < |meaning| && f.tube < |meaning|
  {
    (if f.next <= 0 then FirstDims(n.kind, n.payload, meaning[n.a]) else {})
    + (if f.next <= 1 then
         if ScansTubes(n, 1) then ListDims(meaning[f.tube], n.payload) else SecondDims(n.kind, n.payload, meaning[n.b])
       else {})
    + (if f.next <= 2 then FreeDims(meaning[n.c]) else {})
  }

  ghost predicate DimFrameOk(nodes: seq<Syntax>, meaning: seq<Form>, formulas: seq<FormulaEntry>, f: DimFrame)
    requires GraphOk(nodes, meaning, formulas)
  {
    && 0 < f.term < |nodes|
    && (f.started ==>
          && SyntaxOk(nodes, formulas, nodes[f.term], f.term) && f.next <= Arity(nodes[f.term].kind)
          && f.tube < f.term && Depth(nodes, f.tube) < Depth(nodes, f.term)
          && (f.next <= 1 && BindsTubes(nodes[f.term].kind) ==> f.tube == 0 || nodes[f.tube].kind == TUBE)
          && FreeDims(meaning[f.term]) == f.result + Remaining(meaning, nodes[f.term], f))
  }

  ghost predicate DimStackOk(nodes: seq<Syntax>, meaning: seq<Form>, formulas: seq<FormulaEntry>,
                             frames: seq<DimFrame>, root: nat, known: seq<bool>)
    requires GraphOk(nodes, meaning, formulas) && root < |nodes| == |known|
  {
    && (forall i :: 0 <= i < |frames| ==>
          DimFrameOk(nodes, meaning, formulas, frames[i]) && Depth(nodes, frames[i].term) + i <= Depth(nodes, root))
    && (forall i :: 0 <= i < |frames| - 1 ==> frames[i].started)
    && (frames != [] ==> frames[0].term == root)
    && (frames == [] ==> known[root])
  }

  function DimWeight(frames: seq<DimFrame>): nat {
    if frames == [] then 0 else
    var f := frames[|frames| - 1];
    DimWeight(frames[..|frames| - 1]) + 1 + f.tube + if f.next <= 3 then 3 - f.next else 0
  }

  predicate TopStarted(frames: seq<DimFrame>) { frames != [] && frames[|frames| - 1].started }

  /** Dimensions lie within the native range, so a larger binder binds none. */
  lemma DimsNative(meaning: seq<Form>, symbols: seq<set<nat>>, masks: seq<set<nat>>, known: seq<bool>, h: nat)
    requires MasksOk(meaning, symbols, masks, known) && h < |meaning| && meaning[0] == Absent
    ensures forall d :: d in FreeDims(meaning[h]) ==> d < DIMENSIONS
  {
    if h > 0 { assert MaskOk(masks[h], known[h], meaning[h]); }
  }

  lemma NoListBinder(m: Form, e: nat)
    requires e !in FreeDims(m)
    ensures ListDims(m, e) == FreeDims(m)
  {
    ListDimsBound(m, e);
  }

  /** The child that a frame looks at next. */
  function Looked(nodes: seq<Syntax>, f: DimFrame): nat
    requires f.term < |nodes| && f.tube < |nodes| && f.next < 3
  {
    if ScansTubes(nodes[f.term], f.next) then nodes[f.tube].a else Child(nodes[f.term], f.next)
  }

  /** A frame with a tube's names collected: its body's without the direction, and
      its face's, which the direction never binds. */
  function TubeCollected(formulas: seq<FormulaEntry>, n: Syntax, t: Syntax, f: DimFrame, names: set<nat>): DimFrame {
    f.(result := f.result + (names - {n.payload}) + FormulaNames(formulas, t.payload), tube := t.b)
  }

  function ChildCollected(n: Syntax, f: DimFrame, names: set<nat>): DimFrame {
    var bound := (f.next == 0 && BindsFirst(n.kind)) || (f.next == 1 && BindsSecond(n.kind));
    f.(result := f.result + (if bound && n.payload < DIMENSIONS then names - {n.payload} else names),
       next := f.next + 1)
  }

  lemma TubeDims(nodes: seq<Syntax>, meaning: seq<Form>, formulas: seq<FormulaEntry>, h: nat, e: nat)
    requires GraphOk(nodes, meaning, formulas) && 0 < h < |nodes| && nodes[h].kind == TUBE
    ensures SyntaxOk(nodes, formulas, nodes[h], h)
    ensures Depth(nodes, nodes[h].a) < Depth(nodes, h) && Depth(nodes, nodes[h].b) < Depth(nodes, h)
    ensures ListDims(meaning[h], e) == FormulaNames(formulas, nodes[h].payload) + (FreeDims(meaning[nodes[h].a]) - {e})
            + ListDims(meaning[nodes[h].b], e)
  {
    assert HandleOk(nodes, meaning, formulas, h);
    var t := nodes[h];
    ListNamesExact(formulas[t.payload].sort, formulas[t.payload].list);
    assert FreeDims(meaning[t.c]) == {};
  }

  lemma TubeCollectedOk(nodes: seq<Syntax>, meaning: seq<Form>, formulas: seq<FormulaEntry>, f: DimFrame,
                        names: set<nat>)
    requires GraphOk(nodes, meaning, formulas) && f.started && DimFrameOk(nodes, meaning, formulas, f)
    requires f.next < Arity(nodes[f.term].kind) && ScansTubes(nodes[f.term], f.next) && f.tube != 0
    requires SyntaxOk(nodes, formulas, nodes[f.tube], f.tube) && names == FreeDims(meaning[nodes[f.tube].a])
    ensures DimFrameOk(nodes, meaning, formulas, TubeCollected(formulas, nodes[f.term], nodes[f.tube], f, names))
  {
    var n, t := nodes[f.term], nodes[f.tube];
    TubeDims(nodes, meaning, formulas, f.tube, n.payload);
    var g := TubeCollected(formulas, n, t, f, names);
    assert f.result + Remaining(meaning, n, f) == g.result + Remaining(meaning, n, g);
  }

  lemma ChildStep(meaning: seq<Form>, n: Syntax, f: DimFrame, names: set<nat>)
    requires n.a < |meaning| && n.b < |meaning| && n.c < |meaning| && f.tube < |meaning|
    requires f.next < 3 && !ScansTubes(n, f.next) && names == FreeDims(meaning[Child(n, f.next)])
    requires forall d :: d in FreeDims(meaning[n.a]) || d in FreeDims(meaning[n.b]) ==> d < DIMENSIONS
    ensures var g := ChildCollected(n, f, names);
            f.result + Remaining(meaning, n, f) == g.result + Remaining(meaning, n, g)
  {
    var g := ChildCollected(n, f, names);
    if f.next == 0 {
      assert g.result == f.result + FirstDims(n.kind, n.payload, meaning[n.a]);
    } else if f.next == 1 {
      if n.payload >= DIMENSIONS { NoListBinder(meaning[n.b], n.payload); }
      assert g.result == f.result + SecondDims(n.kind, n.payload, meaning[n.b]);
    }
  }

  lemma ChildCollectedOk(nodes: seq<Syntax>, meaning: seq<Form>, formulas: seq<FormulaEntry>, f: DimFrame,
                         names: set<nat>)
    requires GraphOk(nodes, meaning, formulas) && f.started && DimFrameOk(nodes, meaning, formulas, f)
    requires f.next < Arity(nodes[f.term].kind) && !ScansTubes(nodes[f.term], f.next)
    requires names == FreeDims(meaning[Child(nodes[f.term], f.next)])
    requires forall d :: d in FreeDims(meaning[nodes[f.term].a]) || d in FreeDims(meaning[nodes[f.term].b]) ==>
               d < DIMENSIONS
    ensures DimFrameOk(nodes, meaning, formulas, ChildCollected(nodes[f.term], f, names))
  {
    ChildStep(meaning, nodes[f.term], f, names);
  }

  lemma LookedDepth(nodes: seq<Syntax>, meaning: seq<Form>, formulas: seq<FormulaEntry>, f: DimFrame)
    requires GraphOk(nodes, meaning, formulas) && f.started && DimFrameOk(nodes, meaning, formulas, f)
    requires f.next < Arity(nodes[f.term].kind) && (ScansTubes(nodes[f.term], f.next) ==> f.tube != 0)
    ensures Looked(nodes, f) < |nodes|
    ensures ScansTubes(nodes[f.term], f.next) ==> SyntaxOk(nodes, formulas, nodes[f.tube], f.tube)
    ensures Looked(nodes, f) != 0 ==> Depth(nodes, Looked(nodes, f)) < Depth(nodes, f.term)
  {
    if ScansTubes(nodes[f.term], f.next) { TubeDims(nodes, meaning, formulas, f.tube, 0); }
  }

  lemma {:induction false} DimReplaced(nodes: seq<Syntax>, meaning: seq<Form>, formulas: seq<FormulaEntry>,
                                       frames: seq<DimFrame>, root: nat, known: seq<bool>, f: DimFrame)
    requires GraphOk(nodes, meaning, formulas) && root < |nodes| == |known| && frames != []
    requires DimStackOk(nodes, meaning, formulas, frames, root, known)
    requires f.term == frames[|frames| - 1].term && f.started && DimFrameOk(nodes, meaning, formulas, f)
    ensures DimStackOk(nodes, meaning, formulas, frames[|frames| - 1 := f], root, known)
    ensures |frames| <= Depth(nodes, root)
  {
    var last := |frames| - 1;
    var next := frames[last := f];
    assert DimFrameOk(nodes, meaning, formulas, frames[last]) && Depth(nodes, frames[last].term) + last
        <= Depth(nodes, root);
    forall i | 0 <= i < |next|
      ensures DimFrameOk(nodes, meaning, formulas, next[i]) && Depth(nodes, next[i].term) + i <= Depth(nodes, root)
    {
      if i < last { assert next[i] == frames[i]; }
    }
  }

  lemma {:induction false} DimPushed(nodes: seq<Syntax>, meaning: seq<Form>, formulas: seq<FormulaEntry>,
                                     frames: seq<DimFrame>, root: nat, known: seq<bool>, child: nat)
    requires GraphOk(nodes, meaning, formulas) && root < |nodes| == |known| && TopStarted(frames)
    requires DimStackOk(nodes, meaning, formulas, frames, root, known)
    requires 0 < child < |nodes| && Depth(nodes, child) < Depth(nodes, frames[|frames| - 1].term)
    ensures DimStackOk(nodes, meaning, formulas, frames + [DimFrame(child, 0, 0, false, {})], root, known)
    ensures |frames| + 1 <= Depth(nodes, root)
  {
    assert Depth(nodes, child) >= 1;
    var next := frames + [DimFrame(child, 0, 0, false, {})];
    assert DimFrameOk(nodes, meaning, formulas, next[|frames|]);
    forall i | 0 <= i < |next|
      ensures DimFrameOk(nodes, meaning, formulas, next[i]) && Depth(nodes, next[i].term) + i <= Depth(nodes, root)
    {
      if i < |frames| { assert next[i] == frames[i]; }
    }
  }

  lemma {:induction false} DimPopped(nodes: seq<Syntax>, meaning: seq<Form>, formulas: seq<FormulaEntry>,
                                     frames: seq<DimFrame>, root: nat, was: seq<bool>, known: seq<bool>)
    requires GraphOk(nodes, meaning, formulas) && root < |nodes| == |known| == |was| && frames != []
    requires DimStackOk(nodes, meaning, formulas, frames, root, was)
    requires known[frames[|frames| - 1].term]
    ensures DimStackOk(nodes, meaning, formulas, frames[..|frames| - 1], root, known)
    ensures |frames| <= Depth(nodes, root)
    ensures DimWeight(frames[..|frames| - 1]) < DimWeight(frames)
  {
  }

  /** The frame of a node whose scan begins: its own formula's names. */
  function Begun(n: Syntax, formulas: seq<FormulaEntry>, h: nat): DimFrame {
    DimFrame(h, n.b, 0, true, if UsesFormula(n.kind) then FormulaNames(formulas, n.payload) else {})
  }

  lemma BegunOk(nodes: seq<Syntax>, meaning: seq<Form>, formulas: seq<FormulaEntry>, h: nat)
    requires GraphOk(nodes, meaning, formulas) && 0 < h < |nodes|
    ensures DimFrameOk(nodes, meaning, formulas, Begun(nodes[h], formulas, h))
  {
    var n := nodes[h];
    assert HandleOk(nodes, meaning, formulas, h);
    NodeNames(nodes, meaning, formulas, n);
    if Arity(n.kind) < 2 { assert meaning[n.b] == Absent; }
  }

  /** One step of a started frame: a child to scan first, or the frame advanced. */
  method DimAdvance(k: Kernel, f: DimFrame) returns (child: nat, g: DimFrame)
    requires k.Valid() && f.started && DimFrameOk(k.nodes, k.meaning, k.formulas, f)
    requires f.next < Arity(k.nodes[f.term].kind)
    ensures child != 0 ==> child < |k.nodes| && Depth(k.nodes, child) < Depth(k.nodes, f.term)
    ensures child == 0 ==>
              && g.term == f.term && g.started && DimFrameOk(k.nodes, k.meaning, k.formulas, g)
              && g.next <= 3 && f.tube + 3 - f.next > g.tube + 3 - g.next
  {
    var n := k.nodes[f.term];
    if ScansTubes(n, f.next) && f.tube == 0 { return 0, f.(next := f.next + 1); }
    LookedDepth(k.nodes, k.meaning, k.formulas, f);
    var looked := Looked(k.nodes, f);
    if looked != 0 && !k.known[looked] { return looked, f; }
    var names := if looked != 0 then k.masks[looked] else {};
    assert looked != 0 ==> MaskOk(k.masks[looked], k.known[looked], k.meaning[looked]);
    if ScansTubes(n, f.next) {
      TubeCollectedOk(k.nodes, k.meaning, k.formulas, f, names);
      return 0, TubeCollected(k.formulas, n, k.nodes[f.tube], f, names);
    }
    DimsNative(k.meaning, k.symbols, k.masks, k.known, n.a);
    DimsNative(k.meaning, k.symbols, k.masks, k.known, n.b);
    ChildCollectedOk(k.nodes, k.meaning, k.formulas, f, names);
    return 0, ChildCollected(n, f, names);
  }

  /** One step of the dimension scan. */
  method DimStep(k: Kernel, frames: seq<DimFrame>, ghost root: nat) returns (next: seq<DimFrame>)
    requires k.Valid() && !k.failed && frames != [] && root < |k.nodes|
    requires DimStackOk(k.nodes, k.meaning, k.formulas, frames, root, k.known)
    modifies k`budget, k`failed, k`masks, k`known
    ensures k.Valid() && k.budget <= old(k.budget)
    ensures !k.failed ==>
              DimStackOk(k.nodes, k.meaning, k.formulas, next, root, k.known) && |next| <= Depth(k.nodes, root)
    ensures !k.failed ==>
              || k.budget < old(k.budget)
              || (TopStarted(frames) && !TopStarted(next))
              || (TopStarted(frames) && DimWeight(next) < DimWeight(frames))
  {
    var top := |frames| - 1;
    var f := frames[top];
    if !f.started {
      next := frames;
      var ok := k.Tick();
      if !ok { return; }
      BegunOk(k.nodes, k.meaning, k.formulas, f.term);
      var g := Begun(k.nodes[f.term], k.formulas, f.term);
      DimReplaced(k.nodes, k.meaning, k.formulas, frames, root, k.known, g);
      return frames[top := g];
    }
    if f.next == Arity(k.nodes[f.term].kind) {
      ghost var was := k.known;
      Finish(k, f);
      DimPopped(k.nodes, k.meaning, k.formulas, frames, root, was, k.known);
      return frames[..top];
    }
    var child, g := DimAdvance(k, f);
    if child != 0 {
      DimPushed(k.nodes, k.meaning, k.formulas, frames, root, k.known, child);
      return frames + [DimFrame(child, 0, 0, false, {})];
    }
    DimWeightUpdate(frames, g);
    DimReplaced(k.nodes, k.meaning, k.formulas, frames, root, k.known, g);
    return frames[top := g];
  }

  lemma {:induction false} DimWeightUpdate(frames: seq<DimFrame>, g: DimFrame)
    requires frames != []
    ensures var f := frames[|frames| - 1];
            f.tube + 3 - f.next > g.tube + 3 - g.next && f.next <= 3 && g.next <= 3 ==>
              DimWeight(frames[|frames| - 1 := g]) < DimWeight(frames)
  {
    assert frames[|frames| - 1 := g][..|frames| - 1] == frames[..|frames| - 1];
  }

  /** Records a completed mask. A node's mask only ever loses bits. */
  method Finish(k: Kernel, f: DimFrame)
    requires k.Valid() && f.started && DimFrameOk(k.nodes, k.meaning, k.formulas, f)
    requires f.next == Arity(k.nodes[f.term].kind)
    modifies k`masks, k`known
    ensures k.Valid() && k.masks == old(k.masks)[f.term := FreeDims(k.meaning[f.term])]
    ensures k.known == old(k.known)[f.term := true]
    ensures k.masks[f.term] <= old(k.masks[f.term])
  {
    assert MaskOk(k.masks[f.term], k.known[f.term], k.meaning[f.term]);
    assert FreeDims(k.meaning[f.term]) == f.result;
    k.masks := k.masks[f.term := f.result];
    k.known := k.known[f.term := true];
  }

  /** The free dimensions of a term, exactly, or nothing when the budget runs out. The
      masks stay conservative throughout. */
  method FreeDimensions(k: Kernel, term: nat) returns (dims: set<nat>)
    requires k.Valid() && term < |k.nodes|
    modifies k`budget, k`failed, k`masks, k`known
    ensures k.Valid() && k.budget <= old(k.budget) && (old(k.failed) ==> k.failed)
    ensures !k.failed ==> dims == FreeDims(k.meaning[term])
    ensures k.failed ==> dims == {}
  {
    if term == 0 || k.failed { return {}; }
    if k.known[term] { return k.masks[term]; }
    var frames := [DimFrame(term, 0, 0, false, {})];
    while frames != [] && !k.failed
      invariant k.Valid() && k.budget <= old(k.budget)
      invariant !k.failed ==> DimStackOk(k.nodes, k.meaning, k.formulas, frames, term, k.known)
      invariant !k.failed ==> |frames| <= Depth(k.nodes, term)
      decreases k.budget, !k.failed, TopStarted(frames), DimWeight(frames)
    {
      frames := DimStep(k, frames, term);
    }
    return if k.failed then {} else k.masks[term];
  }
}
