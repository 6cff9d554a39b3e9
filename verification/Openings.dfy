/** term_substitution.c: the locally nameless primitives. One worklist instantiates
    indices and binds references, visits only the nodes it can change, renames a dimension
    binder where it would capture, and memoizes its results by node, binder depth and
    operand. */
module Openings {
  import opened Lattice
  import opened Nameless
  import opened FreeNames
  import opened LocallyNameless
  import opened Formulas
  import opened TermStore
  import opened Store
  import opened Scans
  import opened OpeningFrames
  import F = Frames
  import S = Substitution

  const MEMO_INSTANTIATE := 7
  const MEMO_INSTANTIATE_ALL := 8
  const MEMO_ABSTRACT := 9
  const MEMO_CLOSE := 10
  const MEMO_INDEX_OCCURS := 11

  /** The serial of a call is a 32-bit number. */
  const SERIALS := 0x1_0000_0000

  function Code(job: Job): nat {
    match job
    case Instantiating(values) => if |values| == 1 then MEMO_INSTANTIATE else MEMO_INSTANTIATE_ALL
    case Abstracting(kind, _) => if kind == CONTEXT then MEMO_ABSTRACT else MEMO_CLOSE
  }

  function Key(job: Job, serial: nat): nat {
    match job
    case Instantiating(values) => if |values| == 1 then values[0] else serial
    case Abstracting(_, payload) => payload
  }

  /** What an entry's operation and key stand for; `calls` has the values of each serial. */
  ghost function JobOf(calls: map<nat, seq<nat>>, e: MemoEntry): Job {
    if e.operation == MEMO_INSTANTIATE then Instantiating([e.value])
    else if e.operation == MEMO_INSTANTIATE_ALL then Instantiating(if e.value in calls then calls[e.value] else [])
    else Abstracting(if e.operation == MEMO_ABSTRACT then CONTEXT else OPENED, e.value)
  }

  ghost predicate EntryFits(w: F.World, calls: map<nat, seq<nat>>, e: MemoEntry) {
    && (MEMO_INSTANTIATE <= e.operation <= MEMO_CLOSE ==> Answers(w, JobOf(calls, e), e.term, e.name, e.result))
    && (e.operation == MEMO_INDEX_OCCURS ==>
          e.term < |w.nodes| == |w.meaning| && (e.result != 0 <==> IndexOccurs(w.meaning[e.term], e.name)))
  }

  ghost predicate MemoFits(w: F.World, calls: map<nat, seq<nat>>, memo: seq<MemoEntry>) {
    forall i :: 0 <= i < |memo| ==> EntryFits(w, calls, memo[i])
  }

  lemma MemoFitsLater(w: F.World, w': F.World, calls: map<nat, seq<nat>>, memo: seq<MemoEntry>)
    requires MemoFits(w, calls, memo) && F.Later(w, w') && |w'.nodes| == |w'.meaning| == |w'.bones|
    ensures MemoFits(w', calls, memo)
  {
    forall i | 0 <= i < |memo| ensures EntryFits(w', calls, memo[i]) {
      var e := memo[i];
      assert EntryFits(w, calls, e);
      if MEMO_INSTANTIATE <= e.operation <= MEMO_CLOSE {
        AnswersStable(w, w', JobOf(calls, e), e.term, e.name, e.result);
      }
    }
  }

  /** A serial that no entry has: its values may be anything. */
  lemma MemoFitsCall(w: F.World, calls: map<nat, seq<nat>>, memo: seq<MemoEntry>, serial: nat, values: seq<nat>)
    requires MemoFits(w, calls, memo) && serial !in calls
    ensures MemoFits(w, calls[serial := values], memo)
  {
    forall i | 0 <= i < |memo| ensures EntryFits(w, calls[serial := values], memo[i]) {
      assert EntryFits(w, calls, memo[i]);
      assert memo[i].operation == MEMO_INSTANTIATE_ALL ==> memo[i].value in calls;
    }
  }

  // ---- Does an index occur? ----------------------------------------------------------------

  datatype ScanFrame = ScanFrame(term: nat, index: nat, next: nat, started: bool, waiting: bool)

  /** Whether the index occurs in a child from the `i`th on. */
  ghost predicate OccursFrom(w: F.World, n: Syntax, i: nat, d: nat)
    requires n.a < |w.meaning| && n.b < |w.meaning| && n.c < |w.meaning|
  {
    || (i <= 0 && IndexOccurs(w.meaning[n.a], d))
    || (i <= 1 && IndexOccurs(w.meaning[n.b], Into(n.kind, d)))
    || (i <= 2 && IndexOccurs(w.meaning[n.c], d))
  }

  lemma NodeOccurs(w: F.World, h: nat, d: nat)
    requires F.WorldOk(w) && 0 < h < |w.nodes|
    ensures var n := w.nodes[h];
            && n.a < h && n.b < h && n.c < h
            && (n.kind == BOUND ==> (IndexOccurs(w.meaning[h], d) <==> n.payload == d))
            && (n.kind != BOUND && n.kind != VAR ==> (IndexOccurs(w.meaning[h], d) <==> OccursFrom(w, n, 0, d)))
  {
    F.TermNodeOk(w, h);
    LeafForm(w, h);
    var n, m := w.nodes[h], w.meaning[h];
    if n.kind == BOUND {
      assert IsLeaf(m, BOUND);
    } else if n.kind != VAR {
      NodeForms(w, n);
      SameOccurs(m.a, w.meaning[n.a], d);
      SameOccurs(m.b, w.meaning[n.b], Into(n.kind, d));
      SameOccurs(m.c, w.meaning[n.c], d);
    }
  }

  /** An index that does not reach out of the node does not occur. */
  lemma LooseDecides(w: F.World, h: nat, d: nat)
    requires F.WorldOk(w) && h < |w.nodes|
    ensures LooseAt(w.nodes, h) <= d ==> !IndexOccurs(w.meaning[h], d)
  {
    LooseRecorded(w, h);
    LooseCovers(w.meaning[h], d);
  }

  ghost predicate ScanFrameOk(w: F.World, f: ScanFrame, answer: bool) {
    && F.WorldOk(w) && f.term < |w.nodes|
    && (if !f.started then f.next == 0 && !f.waiting
        else f.term > 0 && HandleOk(w.nodes, w.meaning, w.formulas, f.term)
             && f.next <= Arity(w.nodes[f.term].kind) && (f.waiting ==> f.next > 0)
             && (IndexOccurs(w.meaning[f.term], f.index) <==>
                   (f.waiting && answer) || OccursFrom(w, w.nodes[f.term], f.next, f.index)))
  }

  ghost predicate ScanAwaits(w: F.World, f: ScanFrame, child: nat, index: nat) {
    && f.started && f.waiting && 0 < f.next <= 3 && f.term < |w.nodes|
    && child == Child(w.nodes[f.term], f.next - 1) && index == ChildDepth(w.nodes[f.term].kind, f.index, f.next - 1)
  }

  ghost predicate ScanOk(w: F.World, frames: seq<ScanFrame>, root: nat, d: nat, result: bool)
    requires F.WorldOk(w) && root < |w.nodes|
  {
    && (forall i :: 0 <= i < |frames| ==>
          frames[i].term < |w.nodes| && Depth(w.nodes, frames[i].term) + i <= Depth(w.nodes, root))
    && (forall i :: 0 <= i < |frames| - 1 ==>
          && ScanAwaits(w, frames[i], frames[i + 1].term, frames[i + 1].index)
          && ScanFrameOk(w, frames[i], IndexOccurs(w.meaning[frames[i + 1].term], frames[i + 1].index)))
    && (frames != [] ==> frames[0].term == root && frames[0].index == d && ScanFrameOk(w, frames[|frames| - 1], result))
    && (frames == [] ==> result == IndexOccurs(w.meaning[root], d))
  }

  function ScanWeight(frames: seq<ScanFrame>): nat {
    if frames == [] then 0 else
    var f := frames[|frames| - 1];
    ScanWeight(frames[..|frames| - 1]) + if f.started && f.next <= 3 then 1 + 2 * (3 - f.next) else 1
  }

  lemma {:induction false} ScanPopped(w: F.World, frames: seq<ScanFrame>, root: nat, d: nat, was: bool, result: bool)
    requires F.WorldOk(w) && root < |w.nodes| && frames != [] && ScanOk(w, frames, root, d, was)
    requires result == IndexOccurs(w.meaning[frames[|frames| - 1].term], frames[|frames| - 1].index)
    ensures ScanOk(w, frames[..|frames| - 1], root, d, result)
    ensures ScanWeight(frames[..|frames| - 1]) < ScanWeight(frames)
  {
  }

  lemma {:induction false} ScanReplaced(w: F.World, frames: seq<ScanFrame>, root: nat, d: nat, was: bool, f: ScanFrame,
                                        result: bool)
    requires F.WorldOk(w) && root < |w.nodes| && frames != [] && ScanOk(w, frames, root, d, was)
    requires f.term == frames[|frames| - 1].term && f.index == frames[|frames| - 1].index && ScanFrameOk(w, f, result)
    ensures ScanOk(w, frames[..|frames| - 1] + [f], root, d, result)
  {
  }

  lemma {:induction false} ScanPushed(w: F.World, frames: seq<ScanFrame>, root: nat, d: nat, was: bool, f: ScanFrame,
                                      child: nat, index: nat, result: bool)
    requires F.WorldOk(w) && root < |w.nodes| && frames != [] && ScanOk(w, frames, root, d, was)
    requires f.term == frames[|frames| - 1].term && f.index == frames[|frames| - 1].index
    requires ScanAwaits(w, f, child, index) && child < |w.nodes|
    requires ScanFrameOk(w, f, IndexOccurs(w.meaning[child], index))
    ensures ScanOk(w, frames[..|frames| - 1] + [f, ScanFrame(child, index, 0, false, false)], root, d, result)
  {
    var next := frames[..|frames| - 1] + [f, ScanFrame(child, index, 0, false, false)];
    assert Depth(w.nodes, child) < Depth(w.nodes, f.term);
    forall i | 0 <= i < |next| ensures next[i].term < |w.nodes|
        && Depth(w.nodes, next[i].term) + i <= Depth(w.nodes, root) {
      if i < |frames| { assert next[i].term == frames[i].term; }
    }
    forall i | 0 <= i < |next| - 1
      ensures ScanAwaits(w, next[i], next[i + 1].term, next[i + 1].index)
      ensures ScanFrameOk(w, next[i], IndexOccurs(w.meaning[next[i + 1].term], next[i + 1].index))
    {
      if i < |frames| - 1 {
        assert next[i] == frames[i] && next[i + 1].term == frames[i + 1].term
               && next[i + 1].index == frames[i + 1].index;
      }
    }
  }

  lemma {:induction false} ScanWeightUpdate(frames: seq<ScanFrame>, f: ScanFrame, g: ScanFrame, child: nat, index: nat)
    requires frames != [] && f == frames[|frames| - 1] && f.started && g.started && g.next == f.next + 1 <= 3
    ensures ScanWeight(frames[..|frames| - 1] + [g, ScanFrame(child, index, 0, false, false)]) < ScanWeight(frames)
  {
    var rest := frames[..|frames| - 1];
    var pushed := rest + [g, ScanFrame(child, index, 0, false, false)];
    assert (rest + [g])[..|rest|] == rest;
    assert pushed[..|rest| + 1] == rest + [g];
  }

  // ---- The traversal -----------------------------------------------------------------------

  /** The free dimensions of the values, once they have been read. */
  datatype Seen = Seen(known: bool, dims: set<nat>)

  ghost predicate SeenOk(w: F.World, job: Job, seen: Seen)
    requires JobOk(w, job)
  {
    seen.known && job.Instantiating? ==> ReadUpTo(w, job, |job.values|, seen.dims)
  }

  ghost predicate ReadUpTo(w: F.World, job: Job, n: nat, dims: set<nat>)
    requires JobOk(w, job) && job.Instantiating? && n <= |job.values|
  {
    forall i :: 0 <= i < n ==> FreeDims(w.meaning[job.values[i]]) <= dims
  }

  lemma ReadNext(w: F.World, job: Job, n: nat, dims: set<nat>)
    requires JobOk(w, job) && job.Instantiating? && n < |job.values| && ReadUpTo(w, job, n, dims)
    ensures ReadUpTo(w, job, n + 1, dims + FreeDims(w.meaning[job.values[n]]))
  {
  }

  /** The same of the values put where a binder binds. */
  ghost predicate CoversUpTo(w: F.World, job: Job, t: Syntax, d: nat, n: nat, dims: set<nat>)
    requires JobOk(w, job) && job.Instantiating? && n <= |job.values| && t.a < |w.meaning| && t.b < |w.meaning|
  {
    forall i :: 0 <= i < n && PutUnder(w, t, d, |job.values|, i) ==> FreeDims(w.meaning[job.values[i]]) <= dims
  }

  lemma CoversNext(w: F.World, job: Job, t: Syntax, d: nat, n: nat, dims: set<nat>, put: bool)
    requires JobOk(w, job) && job.Instantiating? && n < |job.values| && t.a < |w.meaning| && t.b < |w.meaning|
    requires CoversUpTo(w, job, t, d, n, dims) && put == PutUnder(w, t, d, |job.values|, n)
    ensures CoversUpTo(w, job, t, d, n + 1, if put then dims + FreeDims(w.meaning[job.values[n]]) else dims)
  {
  }

  lemma CoversRest(w: F.World, job: Job, t: nat, d: nat, n: nat, dims: set<nat>)
    requires F.WorldOk(w) && JobOk(w, job) && job.Instantiating? && 0 < t < |w.nodes| && DimBinder(w.nodes[t].kind)
    requires n <= |job.values| && w.nodes[t].a < |w.nodes| && w.nodes[t].b < |w.nodes|
    requires CoversUpTo(w, job, w.nodes[t], d, n, dims) && (n == |job.values| || LooseAt(w.nodes, t) <= d + n)
    ensures CoversDims(w, job, w.nodes[t], d, dims)
  {
    forall i | 0 <= i < |job.values| && PutUnder(w, w.nodes[t], d, |job.values|, i)
      ensures FreeDims(w.meaning[job.values[i]]) <= dims
    {
      if i >= n { BeyondReach(w, t, d, |job.values|, i); }
    }
  }

  /** Whether the value of index `i` is put where a dimension binder binds. */
  ghost predicate PutUnder(w: F.World, n: Syntax, d: nat, count: nat, i: nat)
    requires n.a < |w.meaning| && n.b < |w.meaning|
  {
    || (BindsFirst(n.kind) && i in Inserted(w.meaning[n.a], d, count))
    || ((BindsTubes(n.kind) || BindsSecond(n.kind)) && i in Inserted(w.meaning[n.b], d, count))
  }

  lemma PutWhereOccurs(w: F.World, n: Syntax, d: nat, count: nat, i: nat)
    requires n.a < |w.meaning| && n.b < |w.meaning| && i < count && DimBinder(n.kind)
    ensures PutUnder(w, n, d, count, i) <==>
              || (F.BindsIn(n.kind, 0) && IndexOccurs(w.meaning[n.a], d + i))
              || (F.BindsIn(n.kind, 1) && IndexOccurs(w.meaning[n.b], d + i))
  {
    InsertedOccurs(w.meaning[n.a], d, count, i);
    InsertedOccurs(w.meaning[n.b], d, count, i);
  }

  /** The binder would capture: some value put under it has its dimension. */
  ghost predicate Captures(w: F.World, job: Job, n: Syntax, d: nat)
    requires JobOk(w, job) && job.Instantiating? && n.a < |w.meaning| && n.b < |w.meaning|
  {
    exists i :: 0 <= i < |job.values| && PutUnder(w, n, d, |job.values|, i)
        && n.payload in FreeDims(w.meaning[job.values[i]])
  }

  lemma ChildReach(w: F.World, t: nat)
    requires F.WorldOk(w) && 0 < t < |w.nodes| && DimBinder(w.nodes[t].kind)
    ensures w.nodes[t].a < t && w.nodes[t].b < t
    ensures Loose(w.meaning[w.nodes[t].a]) <= LooseAt(w.nodes, t)
    ensures Loose(w.meaning[w.nodes[t].b]) <= LooseAt(w.nodes, t)
  {
    F.TermNodeOk(w, t);
    LooseRecorded(w, w.nodes[t].a);
    LooseRecorded(w, w.nodes[t].b);
  }

  /** Nothing is put for an index beyond what the node records. */
  lemma BeyondReach(w: F.World, t: nat, d: nat, count: nat, i: nat)
    requires F.WorldOk(w) && 0 < t < |w.nodes| && DimBinder(w.nodes[t].kind)
    requires LooseAt(w.nodes, t) <= d + i && i < count
    ensures w.nodes[t].a < t && w.nodes[t].b < t && !PutUnder(w, w.nodes[t], d, count, i)
  {
    ChildReach(w, t);
    NoneBeyond(w.meaning[w.nodes[t].a], d, count, i);
    NoneBeyond(w.meaning[w.nodes[t].b], d, count, i);
  }

  lemma NoneBeyond(m: Form, d: nat, count: nat, i: nat)
    requires Loose(m) <= d + i && i < count
    ensures i !in Inserted(m, d, count)
  {
    LooseCovers(m, d + i);
    InsertedOccurs(m, d, count, i);
  }

  lemma CoversLater(w: F.World, w': F.World, job: Job, n: Syntax, d: nat, dims: set<nat>)
    requires JobOk(w, job) && job.Instantiating? && n.a < |w.meaning| && n.b < |w.meaning|
    requires CoversDims(w, job, n, d, dims)
    requires F.Later(w, w')
    ensures JobOk(w', job) && CoversDims(w', job, n, d, dims)
  {
    JobStable(w, w', job);
  }

  /** A frame prepared with its binder renamed, in a later state of the graph. */
  lemma RenamedFrame(w: F.World, w': F.World, job: Job, f: Frame, base: Syntax, dims: set<nat>)
    requires FrameOk(w, job, f) && !f.prepared && job.Instantiating? && DimBinder(w.nodes[f.term].kind)
    requires w.nodes[f.term].a < |w.nodes| && w.nodes[f.term].b < |w.nodes|
    requires CoversDims(w, job, w.nodes[f.term], f.depth, dims)
    requires F.Later(w, w') && F.WorldOk(w') && SyntaxOk(w'.nodes, w'.formulas, base, |w'.nodes|)
    requires var n := w.nodes[f.term];
             && base.kind == n.kind && base.c == n.c && base.payload !in dims && base.payload != n.payload
             && base.payload !in FreeDims(w.meaning[f.term])
             && w'.meaning[base.a] == F.RenamedFirst(n.kind, n.payload, base.payload, w'.meaning[n.a])
             && w'.meaning[base.b] == F.RenamedSecond(n.kind, n.payload, base.payload, w'.meaning[n.b])
             && w'.bones[base.a] == w'.bones[n.a] && w'.bones[base.b] == w'.bones[n.b]
    ensures FrameOk(w', job, Prepared(f, base))
  {
    var n := w.nodes[f.term];
    FrameStable(w, w', job, f);
    CoversLater(w, w', job, n, f.depth, dims);
    F.TermNodeOk(w', f.term);
    RenamedBase(w', job, f.term, n, base, f.depth, dims);
    PreparedFrame(w', job, f, base);
  }

  lemma SeenLater(w: F.World, w': F.World, job: Job, seen: Seen)
    requires JobOk(w, job) && SeenOk(w, job, seen) && F.Later(w, w')
    ensures JobOk(w', job) && SeenOk(w', job, seen)
  {
    JobStable(w, w', job);
  }

  /** A form says whether its handle is a tube. */
  lemma LeafKindOf(w: F.World, h: nat)
    requires F.WorldOk(w) && h < |w.nodes|
    ensures h == 0 <==> w.meaning[h] == Absent
    ensures h != 0 ==> w.meaning[h].Form? && w.meaning[h].kind == w.nodes[h].kind
  {
    ChildStandalone(w.nodes, w.meaning, w.formulas, h);
  }

  lemma RenamedShape(w: F.World, n: Syntax, spare: nat, b: nat)
    requires F.WorldOk(w) && n.b < |w.nodes| && b < |w.nodes| && ListShaped(w.nodes, n) && DimBinder(n.kind)
    requires w.meaning[b] == F.RenamedSecond(n.kind, n.payload, spare, w.meaning[n.b])
    ensures ListShaped(w.nodes, n.(b := b)) && (b == 0 <==> n.b == 0)
  {
    LeafKindOf(w, b);
    LeafKindOf(w, n.b);
  }

  /** A node without a dimension binder in the native range captures no dimension. */
  lemma BinderBeyond(w: F.World, symbols: seq<set<nat>>, masks: seq<set<nat>>, known: seq<bool>, job: Job, n: Syntax,
                     d: nat)
    requires F.WorldOk(w) && JobOk(w, job) && n.a < |w.nodes| && n.b < |w.nodes|
    requires MasksOk(w.meaning, symbols, masks, known)
    requires job.Abstracting? || !DimBinder(n.kind) || n.payload >= DIMENSIONS
    ensures Uncaptured(w, job, n, d)
  {
    if job.Instantiating? && DimBinder(n.kind) {
      forall i | 0 <= i < |job.values|
        ensures Canonic(FormsOf(w, job.values)[i]) && !DimFree(FormsOf(w, job.values)[i], n.payload)
      {
        ChildStandalone(w.nodes, w.meaning, w.formulas, job.values[i]);
        DimsNative(w.meaning, symbols, masks, known, job.values[i]);
        FreeDimsAreFree(w.meaning[job.values[i]], n.payload);
      }
    }
  }

  /** An index that is visited is not below its depth. */
  lemma MentionedIndex(nodes: seq<Syntax>, symbols: seq<set<nat>>, job: Job, t: nat, d: nat)
    requires 0 < t < |nodes| == |symbols| && Mentioned(nodes, symbols, job, t, d) && Arity(nodes[t].kind) == 0
    requires nodes[t].a == nodes[t].b == nodes[t].c == 0
    ensures job.Instantiating? && nodes[t].kind == BOUND ==> nodes[t].payload >= d
  {
    assert LooseAt(nodes, 0) == 0;
  }

  function Weight(frames: seq<Frame>): nat {
    if frames == [] then 0 else
    var f := frames[|frames| - 1];
    if !f.prepared then 4 else if f.next <= 3 then 3 - f.next else 0
  }

  class Opener {
    const k: Kernel
    /** The memo's slots for these operations. */
    const memo: array<MemoEntry>
    const slot: (nat, nat, nat, nat) -> nat
    var serial: nat
    ghost var calls: map<nat, seq<nat>>

    /** Compared to `true` so that it is proved as one fact. */
    ghost predicate Valid() reads this, memo, k, k.memo {
      true ==
        (k.Valid() && memo != k.memo && memo.Length > 0 && serial < SERIALS
         && MemoFits(S.WorldOf(k), calls, memo[..]) && forall s :: s in calls ==> s <= serial)
    }

    constructor (k: Kernel, slot: (nat, nat, nat, nat) -> nat, size: nat)
      requires k.Valid() && size > 0
      ensures Valid() && this.k == k && fresh(memo)
    {
      this.k, this.slot, this.serial, this.calls := k, slot, 0, map[];
      memo := new MemoEntry[size](_ => MemoEntry(0, 0, 0, 0, 0));
    }

    // ---- The memo ---------------------------------------------------------------------------

    method Get(operation: nat, term: nat, name: nat, value: nat) returns (found: bool, result: nat)
      requires Valid() && operation != 0
      ensures found ==> EntryFits(S.WorldOf(k), calls, MemoEntry(operation, term, name, value, result))
    {
      var e := memo[slot(operation, term, name, value) % memo.Length];
      assert e in memo[..];
      if e.operation != operation || e.term != term || e.name != name || e.value != value { return false, 0; }
      return true, e.result;
    }

    method Keep(operation: nat, term: nat, name: nat, value: nat, result: nat)
      requires Valid()
      requires (!k.failed ==> EntryFits(S.WorldOf(k), calls, MemoEntry(operation, term, name, value, result)))
      modifies memo
      ensures Valid()
    {
      if k.failed { return; }
      ghost var was := memo[..];
      var i := slot(operation, term, name, value) % memo.Length;
      memo[i] := MemoEntry(operation, term, name, value, result);
      assert memo[..] == was[i := MemoEntry(operation, term, name, value, result)];
    }

    /** The job's key names its operands. */
    ghost predicate Registered(job: Job) reads this {
      && (job.Instantiating? && |job.values| != 1 ==> serial in calls && calls[serial] == job.values)
      && (job.Abstracting? ==> job.kind == CONTEXT || job.kind == OPENED)
    }

    lemma KeyStands(job: Job, term: nat, depth: nat, result: nat)
      requires Registered(job)
      ensures JobOf(calls, MemoEntry(Code(job), term, depth, Key(job, serial), result)) == job
      ensures MEMO_INSTANTIATE <= Code(job) <= MEMO_CLOSE
    {
      if job.Instantiating? && |job.values| == 1 { assert [job.values[0]] == job.values; }
    }

    // ---- Does an index occur? ---------------------------------------------------------------

    method ScanStart(f: ScanFrame) returns (done: bool, result: bool, g: ScanFrame)
      requires Valid() && !k.failed && f.term < |k.nodes| && !f.started && f.next == 0 && !f.waiting
      modifies k`budget, k`failed, memo
      ensures Valid() && k.budget <= old(k.budget)
      ensures done && !k.failed ==> result == IndexOccurs(k.meaning[f.term], f.index)
      ensures !done && !k.failed ==>
                g == ScanFrame(f.term, f.index, 0, true, false) && k.budget < old(k.budget)
                    && ScanFrameOk(S.WorldOf(k), g, false)
    {
      g := f;
      LooseDecides(S.WorldOf(k), f.term, f.index);
      if LooseAt(k.nodes, f.term) <= f.index { return true, false, f; }
      var found, cached := Get(MEMO_INDEX_OCCURS, f.term, f.index, 0);
      if found { return true, cached != 0, f; }
      var ok := k.Tick();
      if !ok { return true, false, f; }
      NodeOccurs(S.WorldOf(k), f.term, f.index);
      LeafForm(S.WorldOf(k), f.term);
      if k.nodes[f.term].kind == BOUND {
        result := k.nodes[f.term].payload == f.index;
        Keep(MEMO_INDEX_OCCURS, f.term, f.index, 0, if result then 1 else 0);
        return true, result, f;
      }
      assert HandleOk(k.nodes, k.meaning, k.formulas, f.term);
      return false, false, ScanFrame(f.term, f.index, 0, true, false);
    }

    method ScanVisit(f: ScanFrame, answer: bool)
      returns (done: bool, result: bool, g: ScanFrame, child: nat, index: nat)
      requires Valid() && !k.failed && f.started && ScanFrameOk(S.WorldOf(k), f, answer)
      modifies memo
      ensures Valid()
      ensures done ==> result == IndexOccurs(k.meaning[f.term], f.index)
      ensures !done ==>
                && g.term == f.term && g.index == f.index && g.started && g.next == f.next + 1 <= 3
                && ScanAwaits(S.WorldOf(k), g, child, index) && child < |k.nodes|
                && ScanFrameOk(S.WorldOf(k), g, IndexOccurs(k.meaning[child], index))
    {
      var n := k.nodes[f.term];
      g, child, index, done, result := f, 0, 0, true, f.waiting && answer;
      if result || f.next == Arity(n.kind) {
        Keep(MEMO_INDEX_OCCURS, f.term, f.index, 0, if result then 1 else 0);
        return;
      }
      var i := f.next;
      return false, false, ScanFrame(f.term, f.index, i + 1, true, true), Child(n, i), ChildDepth(n.kind, f.index, i);
    }

    method ScanStep(frames: seq<ScanFrame>, ghost root: nat, ghost d: nat, result: bool)
      returns (next: seq<ScanFrame>, answer: bool)
      requires Valid() && !k.failed && frames != [] && root < |k.nodes| && ScanOk(S.WorldOf(k), frames, root, d, result)
      modifies k`budget, k`failed, memo
      ensures Valid() && k.budget <= old(k.budget)
      ensures !k.failed ==> ScanOk(S.WorldOf(k), next, root, d, answer) && |next| <= Depth(k.nodes, root) + 1
      ensures !k.failed ==> k.budget < old(k.budget) || ScanWeight(next) < ScanWeight(frames)
    {
      var top := |frames| - 1;
      var f := frames[top];
      ghost var w := S.WorldOf(k);
      var done, g, child, index;
      if !f.started {
        done, answer, g := ScanStart(f);
        if k.failed { return [], false; }
        if done {
          ScanPopped(w, frames, root, d, result, answer);
          return frames[..top], answer;
        }
        ScanReplaced(w, frames, root, d, result, g, answer);
        return frames[..top] + [g], answer;
      }
      done, answer, g, child, index := ScanVisit(f, result);
      if done {
        ScanPopped(w, frames, root, d, result, answer);
        return frames[..top], answer;
      }
      ScanWeightUpdate(frames, f, g, child, index);
      ScanPushed(w, frames, root, d, result, g, child, index, answer);
      return frames[..top] + [g, ScanFrame(child, index, 0, false, false)], answer;
    }

    /** Whether an index occurs in a term, exactly, for any earlier contents of the memo. The
        stack fits the depth that the term records, and one frame more. */
    method Occurs(term: nat, d: nat) returns (occurs: bool)
      requires Valid() && !k.failed && term < |k.nodes|
      modifies k`budget, k`failed, memo
      ensures Valid() && k.budget <= old(k.budget)
      ensures !k.failed ==> occurs == IndexOccurs(k.meaning[term], d)
    {
      var frames := [ScanFrame(term, d, 0, false, false)];
      occurs := false;
      while frames != [] && !k.failed
        invariant Valid() && k.budget <= old(k.budget)
        invariant !k.failed ==> ScanOk(S.WorldOf(k), frames, term, d, occurs) && |frames| <= Depth(k.nodes, term) + 1
        decreases k.budget, !k.failed, ScanWeight(frames)
      {
        frames, occurs := ScanStep(frames, term, d, occurs);
      }
    }

    // ---- Preparing a node -------------------------------------------------------------------

    /** The free dimensions of all values, read once. */
    method ValueDims(job: Job, seen: Seen) returns (all: Seen)
      requires Valid() && !k.failed && JobOk(S.WorldOf(k), job) && job.Instantiating? && SeenOk(S.WorldOf(k), job, seen)
      modifies k`budget, k`failed, k`masks, k`known
      ensures Valid() && k.budget <= old(k.budget)
      ensures !k.failed ==> all.known && SeenOk(S.WorldOf(k), job, all)
    {
      if seen.known { return seen; }
      ghost var w := S.WorldOf(k);
      var i, dims := 0, {};
      while i < |job.values| && !k.failed
        invariant Valid() && k.budget <= old(k.budget) && i <= |job.values|
        invariant S.WorldOf(k) == w && (!k.failed ==> ReadUpTo(w, job, i, dims))
      {
        var free := FreeDimensions(k, job.values[i]);
        ReadNext(w, job, i, dims);
        dims, i := dims + free, i + 1;
      }
      return Seen(true, dims);
    }

    /** Whether the value of an index is put where the binder of a node binds. */
    method Put(n: Syntax, d: nat, ghost count: nat, i: nat) returns (put: bool)
      requires Valid() && !k.failed && n.a < |k.nodes| && n.b < |k.nodes| && DimBinder(n.kind) && i < count
      modifies k`budget, k`failed, memo
      ensures Valid() && k.budget <= old(k.budget)
      ensures !k.failed ==> put == PutUnder(S.WorldOf(k), n, d, count, i)
    {
      PutWhereOccurs(S.WorldOf(k), n, d, count, i);
      put := false;
      if F.BindsIn(n.kind, 0) { put := Occurs(n.a, d + i); }
      if !put && !k.failed && F.BindsIn(n.kind, 1) { put := Occurs(n.b, d + i); }
    }

    /** Adds the dimensions of one value, if it is put where the binder binds. */
    method AddInserted(job: Job, n: Syntax, d: nat, i: nat, dims: set<nat>) returns (sum: set<nat>)
      requires Valid() && !k.failed && JobOk(S.WorldOf(k), job) && job.Instantiating? && i < |job.values|
      requires DimBinder(n.kind) && n.a < |k.nodes| && n.b < |k.nodes| && CoversUpTo(S.WorldOf(k), job, n, d, i, dims)
      requires n.payload in dims ==> Captures(S.WorldOf(k), job, n, d)
      modifies k`budget, k`failed, k`masks, k`known, memo
      ensures Valid() && k.budget <= old(k.budget)
      ensures !k.failed ==> CoversUpTo(S.WorldOf(k), job, n, d, i + 1, sum)
      ensures !k.failed && n.payload in sum ==> Captures(S.WorldOf(k), job, n, d)
    {
      ghost var w := S.WorldOf(k);
      sum := dims;
      var put := Put(n, d, |job.values|, i);
      if k.failed { return; }
      CoversNext(w, job, n, d, i, dims, put);
      if put {
        var free := FreeDimensions(k, job.values[i]);
        sum := dims + free;
      }
    }

    /** The free dimensions of the values put where the node's dimension binder binds, or of
        all values where those have not its dimension. So it is renamed just when a value
        put under it has its dimension. */
    method InsertedDims(job: Job, f: Frame, seen: Seen) returns (dims: set<nat>, all: Seen)
      requires Valid() && !k.failed && FrameOk(S.WorldOf(k), job, f) && job.Instantiating?
      requires SeenOk(S.WorldOf(k), job, seen)
      requires DimBinder(k.nodes[f.term].kind)
      modifies k`budget, k`failed, k`masks, k`known, memo
      ensures Valid() && k.budget <= old(k.budget)
      ensures k.nodes[f.term].a < |k.nodes| && k.nodes[f.term].b < |k.nodes|
      ensures !k.failed ==>
                SeenOk(S.WorldOf(k), job, all) && CoversDims(S.WorldOf(k), job, k.nodes[f.term], f.depth, dims)
      ensures !k.failed && k.nodes[f.term].payload in dims ==> Captures(S.WorldOf(k), job, k.nodes[f.term], f.depth)
    {
      ghost var w := S.WorldOf(k);
      F.TermNodeOk(w, f.term);
      var n := k.nodes[f.term];
      dims := {};
      all := ValueDims(job, seen);
      if k.failed { return; }
      if n.payload !in all.dims { return all.dims, all; }
      var i, loose := 0, LooseAt(k.nodes, f.term);
      while i < |job.values| && f.depth + i < loose && !k.failed
        invariant Valid() && k.budget <= old(k.budget) && i <= |job.values| && S.WorldOf(k) == w
        invariant !k.failed ==> CoversUpTo(w, job, n, f.depth, i, dims)
        invariant !k.failed && n.payload in dims ==> Captures(w, job, n, f.depth)
      {
        dims := AddInserted(job, n, f.depth, i, dims);
        i := i + 1;
      }
      if !k.failed { CoversRest(w, job, f.term, f.depth, i, dims); }
    }

    /** A dimension substitution that a renaming asks for. */
    method Respond(r: F.Request) returns (result: nat)
      requires Valid() && !k.failed && F.RequestOk(S.WorldOf(k), r)
      modifies k, k.memo
      ensures Valid() && k.Grown()
      ensures !k.failed ==> F.Solves(S.WorldOf(k), r, result)
    {
      ghost var was := S.WorldOf(k);
      var pushed, frame, answer := S.Push(k, r, 1);
      result := answer;
      if pushed && !k.failed { result := S.Traverse(k, frame); }
      MemoFitsLater(was, S.WorldOf(k), calls, memo[..]);
      if !k.failed { F.RequestStable(was, S.WorldOf(k), r); }
    }

    /** A node with its dimension binder renamed, in the children that it binds. */
    method Rename(job: Job, f: Frame, dims: set<nat>) returns (base: Syntax)
      requires Valid() && !k.failed && FrameOk(S.WorldOf(k), job, f) && !f.prepared && job.Instantiating?
      requires DimBinder(k.nodes[f.term].kind) && k.nodes[f.term].payload < DIMENSIONS
      requires k.nodes[f.term].a < |k.nodes| && k.nodes[f.term].b < |k.nodes|
      requires CoversDims(S.WorldOf(k), job, k.nodes[f.term], f.depth, dims)
      modifies k, k.memo
      ensures Valid() && k.Grown()
      ensures !k.failed ==> FrameOk(S.WorldOf(k), job, Prepared(f, base))
    {
      ghost var w := S.WorldOf(k);
      var n := k.nodes[f.term];
      F.TermNodeOk(w, f.term);
      base := n;
      var spare, renaming := Spare(f, n.payload, dims);
      if k.failed { return; }
      base := RenameChildren(n, spare, renaming);
      if k.failed { return; }
      RenamedFrame(w, S.WorldOf(k), job, f, base, dims);
    }

    method Spare(f: Frame, bound: nat, dims: set<nat>) returns (spare: nat, renaming: seq<DimClause>)
      requires Valid() && !k.failed && f.term < |k.nodes|
      modifies k
      ensures Valid() && k.Grown() && k.nodes == old(k.nodes) && k.meaning == old(k.meaning)
      ensures !k.failed ==>
                && spare !in FreeDims(k.meaning[f.term]) && spare !in dims && spare != bound
                && ListNormal(Interval, renaming) && LiftedList(Interval, renaming) == Dimension(spare)
    {
      ghost var was := S.WorldOf(k);
      spare, renaming := S.SpareDimension(k, F.Request(F.ForTerm(0), f.term, 0), bound, dims);
      MemoFitsLater(was, S.WorldOf(k), calls, memo[..]);
    }

    method RenameFirst(n: Syntax, spare: nat, renaming: seq<DimClause>) returns (a: nat)
      requires Valid() && !k.failed && n.a < |k.nodes| && DimBinder(n.kind)
      requires ListNormal(Interval, renaming) && LiftedList(Interval, renaming) == Dimension(spare)
      modifies k, k.memo
      ensures Valid() && k.Grown()
      ensures !k.failed ==> a < |k.nodes| && k.meaning[a] == F.RenamedFirst(n.kind, n.payload, spare, k.meaning[n.a])
      ensures !k.failed ==> k.bones[a] == k.bones[n.a]
    {
      a := n.a;
      if F.BindsIn(n.kind, 0) { a := Respond(F.Request(F.ForDimension(renaming), n.a, n.payload)); }
    }

    method RenameSecond(n: Syntax, spare: nat, renaming: seq<DimClause>) returns (b: nat)
      requires Valid() && !k.failed && n.b < |k.nodes| && DimBinder(n.kind) && n.payload < DIMENSIONS
      requires ListShaped(k.nodes, n)
      requires ListNormal(Interval, renaming) && LiftedList(Interval, renaming) == Dimension(spare)
      modifies k, k.memo
      ensures Valid() && k.Grown()
      ensures !k.failed ==> b < |k.nodes| && k.meaning[b] == F.RenamedSecond(n.kind, n.payload, spare, k.meaning[n.b])
      ensures !k.failed ==> k.bones[b] == k.bones[n.b]
    {
      b := n.b;
      if F.BindsIn(n.kind, 1) {
        b := Respond(if BindsTubes(n.kind) then F.Request(F.ForTubes(renaming, true, false), n.b, n.payload)
                     else F.Request(F.ForDimension(renaming), n.b, n.payload));
      }
    }

    method RenameChildren(n: Syntax, spare: nat, renaming: seq<DimClause>) returns (base: Syntax)
      requires Valid() && !k.failed && SyntaxOk(k.nodes, k.formulas, n, |k.nodes|) && DimBinder(n.kind)
      requires n.payload < DIMENSIONS
      requires ListNormal(Interval, renaming) && LiftedList(Interval, renaming) == Dimension(spare)
      modifies k, k.memo
      ensures Valid() && k.Grown()
      ensures !k.failed ==>
                && SyntaxOk(k.nodes, k.formulas, base, |k.nodes|) && base.kind == n.kind && base.payload == spare
                && base.c == n.c
                && k.meaning[base.a] == F.RenamedFirst(n.kind, n.payload, spare, k.meaning[n.a])
                && k.meaning[base.b] == F.RenamedSecond(n.kind, n.payload, spare, k.meaning[n.b])
                && k.bones[base.a] == k.bones[n.a] && k.bones[base.b] == k.bones[n.b]
    {
      base := n;
      var a := RenameFirst(n, spare, renaming);
      if k.failed { return; }
      var b := RenameSecond(n, spare, renaming);
      if k.failed { return; }
      RenamedShape(S.WorldOf(k), n, spare, b);
      base := n.(payload := spare, a := a, b := b);
    }

    /** The first turn of a frame: its node, with its dimension binder renamed if it would
        capture. Abstraction puts in an index, which has no dimension. */
    method Prepare(job: Job, f: Frame, seen: Seen) returns (g: Frame, all: Seen)
      requires Valid() && !k.failed && FrameOk(S.WorldOf(k), job, f) && !f.prepared && SeenOk(S.WorldOf(k), job, seen)
      modifies k, k.memo, memo
      ensures Valid() && k.Grown()
      ensures g.prepared && g.term == f.term && g.depth == f.depth && g.next == f.next && !g.waiting
      ensures !k.failed ==> FrameOk(S.WorldOf(k), job, g) && SeenOk(S.WorldOf(k), job, all)
    {
      var n := k.nodes[f.term];
      g, all := Prepared(f, n), seen;
      if job.Instantiating? && DimBinder(n.kind) && n.payload < DIMENSIONS {
        var dims;
        dims, all := InsertedDims(job, f, seen);
        if k.failed { return; }
        if n.payload in dims {
          ghost var w := S.WorldOf(k);
          var base := Rename(job, f, dims);
          if !k.failed { SeenLater(w, S.WorldOf(k), job, all); }
          return Prepared(f, base), all;
        }
        CoveredUncaptured(S.WorldOf(k), job, n, f.depth, dims);
      } else {
        F.TermNodeOk(S.WorldOf(k), f.term);
        BinderBeyond(S.WorldOf(k), k.symbols, k.masks, k.known, job, n, f.depth);
      }
      F.TermNodeOk(S.WorldOf(k), f.term);
      PreparedFrame(S.WorldOf(k), job, f, n);
    }

    // ---- The loop ---------------------------------------------------------------------------

    /** A leaf that is visited: an index within reach, the reference, or a leaf to keep. */
    method ReadyLeaf(job: Job, t: nat, d: nat) returns (result: nat)
      requires Valid() && !k.failed && JobOk(S.WorldOf(k), job) && 0 < t < |k.nodes| && Arity(k.nodes[t].kind) == 0
      requires job.Instantiating? && k.nodes[t].kind == BOUND ==> k.nodes[t].payload >= d
      modifies k
      ensures Valid() && k.Grown()
      ensures !k.failed ==> Answers(S.WorldOf(k), job, t, d, result)
    {
      ghost var w := S.WorldOf(k);
      var n := k.nodes[t];
      match job {
        case Instantiating(values) =>
          if n.kind == BOUND && n.payload - d < |values| {
            IndexReplaced(w, job, t, d);
            return values[n.payload - d];
          }
        case Abstracting(kind, payload) =>
          if n.kind == kind && n.payload == payload {
            result := k.Make(Syntax(BOUND, d, 0, 0, 0));
            MemoFitsLater(w, S.WorldOf(k), calls, memo[..]);
            if !k.failed { ReferenceBound(S.WorldOf(k), job, t, d, result); }
            return;
          }
      }
      LeafKept(w, job, t, d);
      return t;
    }

    /** A node unchanged, memoized or a leaf needs no frame. */
    method Ready(job: Job, t: nat, d: nat) returns (ready: bool, result: nat)
      requires Valid() && !k.failed && JobOk(S.WorldOf(k), job) && Registered(job) && t < |k.nodes|
      modifies k, memo
      ensures Valid() && k.Grown()
      ensures !k.failed && !ready ==> Answers(S.WorldOf(k), job, t, d, result)
      ensures !k.failed && ready ==> k.budget < old(k.budget) && FrameOk(S.WorldOf(k), job, Start(t, d))
    {
      ready, result := false, t;
      if t == 0 { return; }
      if !Mentioned(k.nodes, k.symbols, job, t, d) {
        Unmentioned(S.WorldOf(k), k.symbols, k.masks, k.known, job, t, d);
        return;
      }
      ready, result := Visit(job, t, d);
    }

    method Visit(job: Job, t: nat, d: nat) returns (ready: bool, result: nat)
      requires Valid() && !k.failed && JobOk(S.WorldOf(k), job) && Registered(job) && 0 < t < |k.nodes|
      requires Mentioned(k.nodes, k.symbols, job, t, d)
      modifies k, memo
      ensures Valid() && k.Grown()
      ensures !k.failed && !ready ==> Answers(S.WorldOf(k), job, t, d, result)
      ensures !k.failed && ready ==> k.budget < old(k.budget) && FrameOk(S.WorldOf(k), job, Start(t, d))
    {
      ready, result := false, t;
      var found, cached := Recall(job, t, d);
      var ok := k.Tick();
      if !ok { return; }
      if found { return false, cached; }
      if Arity(k.nodes[t].kind) > 0 { return true, 0; }
      F.TermNodeOk(S.WorldOf(k), t);
      MentionedIndex(k.nodes, k.symbols, job, t, d);
      result := ReadyLeaf(job, t, d);
      if !k.failed { Remember(job, t, d, result); }
    }

    method Recall(job: Job, t: nat, d: nat) returns (found: bool, result: nat)
      requires Valid() && Registered(job)
      ensures found ==> Answers(S.WorldOf(k), job, t, d, result)
    {
      KeyStands(job, t, d, 0);
      found, result := Get(Code(job), t, d, Key(job, serial));
      KeyStands(job, t, d, result);
    }

    method Remember(job: Job, t: nat, d: nat, result: nat)
      requires Valid() && Registered(job) && Answers(S.WorldOf(k), job, t, d, result)
      modifies memo
      ensures Valid()
    {
      KeyStands(job, t, d, result);
      Keep(Code(job), t, d, Key(job, serial), result);
    }

    /** The rebuilt node: the original where nothing changed. */
    method Finish(job: Job, f: Frame) returns (result: nat)
      requires Valid() && !k.failed && Registered(job) && FrameOk(S.WorldOf(k), job, f)
      requires f.prepared && !f.waiting && f.next == Arity(f.base.kind)
      modifies k, memo
      ensures Valid() && k.Grown()
      ensures !k.failed ==> Answers(S.WorldOf(k), job, f.term, f.depth, result)
    {
      ghost var w := S.WorldOf(k);
      ChildrenDone(w, job, f);
      result := f.term;
      if f.node == k.nodes[f.term] {
        RebuiltOk(w, job, f, w, f.term);
      } else {
        result := k.Make(f.node);
        MemoFitsLater(w, S.WorldOf(k), calls, memo[..]);
        if k.failed { return; }
        RebuiltOk(w, job, f, S.WorldOf(k), result);
      }
      Remember(job, f.term, f.depth, result);
    }

    /** One turn of the loop, for the top frame. */
    method Turn(job: Job, frames: seq<Frame>, ghost root: nat, last: nat, seen: Seen)
      returns (next: seq<Frame>, result: nat, all: Seen)
      requires Valid() && !k.failed && Registered(job) && JobOk(S.WorldOf(k), job) && SeenOk(S.WorldOf(k), job, seen)
      requires 0 < |frames| <= S.STACK && Running(S.WorldOf(k), job, frames, root, last)
      modifies k, k.memo, memo
      ensures Valid() && k.Grown() && |next| <= S.STACK
      ensures !k.failed ==>
                && JobOk(S.WorldOf(k), job) && SeenOk(S.WorldOf(k), job, all)
                && Running(S.WorldOf(k), job, next, root, result)
      ensures !k.failed ==>
                k.budget < old(k.budget) || |next| < |frames| || (|next| == |frames| && Weight(next) < Weight(frames))
    {
      ghost var w := S.WorldOf(k);
      var top := |frames| - 1;
      result := last;
      if !frames[top].prepared {
        next, all := PrepareTop(job, frames, root, last, seen);
        return;
      }
      all := seen;
      TopFilled(w, job, frames, root, last);
      next, result := Rebuild(job, frames[..top] + [Filled(frames[top], last)], root, last);
      if !k.failed { SeenLater(w, S.WorldOf(k), job, seen); }
    }

    method PrepareTop(job: Job, frames: seq<Frame>, ghost root: nat, ghost last: nat, seen: Seen)
      returns (next: seq<Frame>, all: Seen)
      requires Valid() && !k.failed && JobOk(S.WorldOf(k), job) && SeenOk(S.WorldOf(k), job, seen)
      requires frames != [] && Running(S.WorldOf(k), job, frames, root, last) && !frames[|frames| - 1].prepared
      modifies k, k.memo, memo
      ensures Valid() && k.Grown() && |next| == |frames| && Weight(next) < Weight(frames)
      ensures !k.failed ==>
                && JobOk(S.WorldOf(k), job) && SeenOk(S.WorldOf(k), job, all)
                && Running(S.WorldOf(k), job, next, root, last)
    {
      ghost var w := S.WorldOf(k);
      var top := |frames| - 1;
      var g;
      g, all := Prepare(job, frames[top], seen);
      next := frames[..top] + [g];
      if k.failed { return; }
      StackedLater(w, S.WorldOf(k), job, frames, root);
      TopReplaced(S.WorldOf(k), job, frames, root, g);
      JobStable(w, S.WorldOf(k), job);
    }

    /** The top frame's next child, or its answer. */
    method Rebuild(job: Job, frames: seq<Frame>, ghost root: nat, last: nat) returns (next: seq<Frame>, result: nat)
      requires Valid() && !k.failed && Registered(job) && 0 < |frames| <= S.STACK
      requires Stacked(S.WorldOf(k), job, frames, root)
      requires frames[|frames| - 1].prepared && !frames[|frames| - 1].waiting
      modifies k, memo
      ensures Valid() && k.Grown() && |next| <= S.STACK
      ensures !k.failed ==> Running(S.WorldOf(k), job, next, root, result)
      ensures !k.failed ==>
                k.budget < old(k.budget) || |next| < |frames| || (|next| == |frames| && Weight(next) < Weight(frames))
    {
      ghost var w := S.WorldOf(k);
      var top := |frames| - 1;
      var f := frames[top];
      next, result := [], last;
      assert FrameOk(w, job, f);
      if f.next == Arity(f.base.kind) {
        result := Finish(job, f);
        if k.failed { return; }
        StackedLater(w, S.WorldOf(k), job, frames, root);
        TopPopped(S.WorldOf(k), job, frames, root, result);
        return frames[..top], result;
      }
      TopAsks(w, job, frames, root);
      next, result := AskChild(job, frames[..top] + [Asking(f)], Child(f.node, f.next),
                               ChildDepth(f.base.kind, f.depth, f.next), root, last);
    }

    method AskChild(job: Job, frames: seq<Frame>, child: nat, depth: nat, ghost root: nat, last: nat)
      returns (next: seq<Frame>, result: nat)
      requires Valid() && !k.failed && Registered(job) && JobOk(S.WorldOf(k), job) && child < |k.nodes|
      requires 0 < |frames| <= S.STACK && Stacked(S.WorldOf(k), job, frames, root)
      requires Waits(frames[|frames| - 1], child, depth)
      modifies k, memo
      ensures Valid() && k.Grown() && |next| <= S.STACK
      ensures !k.failed ==> Running(S.WorldOf(k), job, next, root, result)
      ensures !k.failed ==> k.budget < old(k.budget) || next == frames
    {
      ghost var w := S.WorldOf(k);
      next, result := frames, last;
      var ready, answer := Ready(job, child, depth);
      if k.failed { return; }
      StackedLater(w, S.WorldOf(k), job, frames, root);
      if !ready { return frames, answer; }
      if |frames| == S.STACK {
        k.Fail();
        return;
      }
      TopPushed(S.WorldOf(k), job, frames, root, child, depth);
      return frames + [Start(child, depth)], last;
    }

    method Traverse(job: Job, term: nat) returns (result: nat)
      requires Valid() && !k.failed && Registered(job) && JobOk(S.WorldOf(k), job) && 0 < term < |k.nodes|
      modifies k, k.memo, memo
      ensures Valid() && k.Grown()
      ensures !k.failed ==> Answers(S.WorldOf(k), job, term, 0, result)
    {
      var ready, answer := Ready(job, term, 0);
      if k.failed || !ready { return answer; }
      result := Run(job, term);
    }

    method Run(job: Job, term: nat) returns (result: nat)
      requires Valid() && !k.failed && Registered(job) && JobOk(S.WorldOf(k), job)
      requires FrameOk(S.WorldOf(k), job, Start(term, 0))
      modifies k, k.memo, memo
      ensures Valid() && k.Grown()
      ensures !k.failed ==> Answers(S.WorldOf(k), job, term, 0, result)
    {
      var frames, seen := [Start(term, 0)], Seen(false, {});
      result := 0;
      while frames != [] && !k.failed
        invariant Valid() && k.Grown() && |frames| <= S.STACK
        invariant !k.failed ==>
                    && JobOk(S.WorldOf(k), job) && SeenOk(S.WorldOf(k), job, seen)
                    && Running(S.WorldOf(k), job, frames, term, result)
        decreases k.budget, !k.failed, |frames|, Weight(frames)
      {
        frames, result, seen := Turn(job, frames, term, result, seen);
      }
    }

    // ---- The primitives ---------------------------------------------------------------------

    /** A serial that no entry of the memo has. Where the serials wrap, the memo is cleared. */
    method NextSerial(values: seq<nat>)
      requires Valid()
      modifies this, memo
      ensures Valid() && serial in calls && calls[serial] == values
    {
      ghost var was := calls;
      if serial + 1 == SERIALS {
        Clear();
        serial, calls := 0, map[];
      }
      MemoFitsCall(S.WorldOf(k), calls, memo[..], serial + 1, values);
      serial := serial + 1;
      calls := calls[serial := values];
    }

    method Clear()
      requires Valid()
      modifies memo
      ensures Valid() && forall i :: 0 <= i < memo.Length ==> memo[i].operation == 0
    {
      var i := 0;
      while i < memo.Length
        invariant Valid() && i <= memo.Length && forall j :: 0 <= j < i ==> memo[j].operation == 0
      {
        ghost var was := memo[..];
        memo[i] := MemoEntry(0, 0, 0, 0, 0);
        assert memo[..] == was[i := MemoEntry(0, 0, 0, 0, 0)];
        i := i + 1;
      }
    }

    /** Whether every handle names a node. */
    method Known(values: seq<nat>) returns (known: bool)
      ensures known <==> forall i :: 0 <= i < |values| ==> 0 < values[i] < |k.nodes|
    {
      var i := 0;
      while i < |values|
        invariant i <= |values| && forall j :: 0 <= j < i ==> 0 < values[j] < |k.nodes|
      {
        if values[i] == 0 || values[i] >= |k.nodes| { return false; }
        i := i + 1;
      }
      return true;
    }

    /** `term` with index `i`, under its binders, replaced by `values[i]`, whatever the memo
        holds. The form of the answer is the instantiated form, so that no dimension of a
        value was captured, exactly if no LAM or PI of the term that still carries a name
        has a value put under it that has the name free. */
    method InstantiateAll(term: nat, values: seq<nat>) returns (result: nat)
      requires Valid()
      modifies this, memo, k, k.memo
      ensures Valid() && k.Grown() && (k.failed ==> result == 0)
      ensures !k.failed ==> 0 < term < |k.nodes| && 0 < result < |k.nodes|
      ensures !k.failed ==> forall i :: 0 <= i < |values| ==> 0 < values[i] < |k.nodes|
      ensures !k.failed ==> var forms := FormsOf(S.WorldOf(k), values);
                (k.meaning[result] == Instantiate(k.meaning[term], 0, forms) <==> !Captured(k.bones[term], 0, forms))
    {
      if k.failed { return 0; }
      var known := Known([term] + values);
      assert known ==> ([term] + values)[0] == term && forall i :: 0 <= i < |values| ==>
               ([term] + values)[i + 1] == values[i];
      if !known {
        k.Fail();
        return 0;
      }
      if values == [] {
        InstantiateNothing(k.meaning[term], 0);
        assert FormsOf(S.WorldOf(k), values) == [];
        NothingCaptured(k.bones[term], 0);
        return term;
      }
      if |values| > 1 { NextSerial(values); }
      result := Traverse(Instantiating(values), term);
      if k.failed { return 0; }
      ghost var forms := FormsOf(S.WorldOf(k), values);
      ExactIff(k.meaning[term], k.meaning[result], Instantiate(k.meaning[term], 0, forms),
               Captured(k.bones[term], 0, forms));
    }

    /** A binder's body with its index 0 replaced. */
    method InstantiateOne(term: nat, value: nat) returns (result: nat)
      requires Valid()
      modifies this, memo, k, k.memo
      ensures Valid() && k.Grown() && (k.failed ==> result == 0)
      ensures !k.failed ==> 0 < term < |k.nodes| && 0 < value < |k.nodes| && 0 < result < |k.nodes|
      ensures !k.failed ==>
                (k.meaning[result] == Instantiate(k.meaning[term], 0, [k.meaning[value]])
                 <==> !Captured(k.bones[term], 0, [k.meaning[value]]))
    {
      result := InstantiateAll(term, [value]);
      if !k.failed {
        assert [value][0] == value;
        assert FormsOf(S.WorldOf(k), [value]) == [k.meaning[value]];
      }
    }

    /** Each reference to a context entry becomes the index of a binder put around the term. */
    method AbstractEntry(term: nat, entry: nat) returns (result: nat)
      requires Valid()
      modifies memo, k, k.memo
      ensures Valid() && k.Grown() && (k.failed ==> result == 0)
      ensures !k.failed ==>
                0 < term < |k.nodes| && 0 < result < |k.nodes|
                && k.meaning[result] == Abstract(k.meaning[term], 0, Leaf(CONTEXT, entry))
    {
      result := AbstractAll(term, Abstracting(CONTEXT, entry));
    }

    /** An opened level is bound again as index 0. */
    method CloseAt(term: nat, level: nat) returns (result: nat)
      requires Valid()
      modifies memo, k, k.memo
      ensures Valid() && k.Grown() && (k.failed ==> result == 0)
      ensures !k.failed ==>
                0 < term < |k.nodes| && 0 < result < |k.nodes| && k.meaning[result] == Close(k.meaning[term], level)
    {
      result := AbstractAll(term, Abstracting(OPENED, level));
    }

    method AbstractAll(term: nat, job: Job) returns (result: nat)
      requires Valid() && job.Abstracting? && (job.kind == CONTEXT || job.kind == OPENED)
      modifies memo, k, k.memo
      ensures Valid() && k.Grown() && (k.failed ==> result == 0)
      ensures !k.failed ==>
                0 < term < |k.nodes| && 0 < result < |k.nodes|
                && k.meaning[result] == Abstract(k.meaning[term], 0, Leaf(job.kind, job.payload))
    {
      if k.failed { return 0; }
      if term == 0 || term >= |k.nodes| {
        k.Fail();
        return 0;
      }
      result := Traverse(job, term);
      if k.failed { return 0; }
    }

    method LevelLeaf(level: nat) returns (leaf: nat)
      requires Valid() && !k.failed
      modifies k
      ensures Valid() && k.Grown()
      ensures !k.failed ==> 0 < leaf < |k.nodes| && k.meaning[leaf] == Leaf(OPENED, level)
    {
      ghost var w := S.WorldOf(k);
      leaf := k.Make(Syntax(OPENED, level, 0, 0, 0));
      MemoFitsLater(w, S.WorldOf(k), calls, memo[..]);
      if !k.failed { LeafForm(S.WorldOf(k), leaf); }
    }

    /** A binder's body opened at a level. */
    method OpenAt(body: nat, level: nat) returns (result: nat)
      requires Valid()
      modifies this, memo, k, k.memo
      ensures Valid() && k.Grown() && (k.failed ==> result == 0)
      ensures !k.failed ==>
                0 < body < |k.nodes| && 0 < result < |k.nodes| && k.meaning[result] == Open(k.meaning[body], level)
    {
      if k.failed { return 0; }
      var leaf := LevelLeaf(level);
      if k.failed { return 0; }
      result := InstantiateOne(body, leaf);
      if !k.failed { NamelessUncaptured(k.bones[body], 0, [k.meaning[leaf]]); }
    }
  }

  /** An operation's supply of levels, above every operand that it combines with what it
      opens. */
  class LevelSupply {
    var next: nat

    constructor ()
      ensures next == 0
    {
      next := 0;
    }

    method Above(k: Kernel, operand: nat)
      requires k.Valid()
      modifies this
      ensures next >= old(next) && (operand < |k.nodes| ==> Levels(k.meaning[operand]) <= next)
      ensures next == old(next) || (operand < |k.nodes| && next == Levels(k.meaning[operand]))
    {
      if operand < |k.nodes| { LevelsRecorded(S.WorldOf(k), operand); }
      if operand != 0 && operand < |k.nodes| && LevelsAt(k.nodes, operand) > next {
        next := LevelsAt(k.nodes, operand);
      }
    }

    /** The next level, never handed out before. */
    method Take(k: Kernel) returns (ok: bool, level: nat)
      requires k.Valid()
      modifies this, k`failed
      ensures k.Valid() && (ok ==> level == old(next) && next == level + 1) && (!ok ==> k.failed && next == old(next))
      ensures !ok <==> old(next) == MAX_SYMBOL
    {
      if next == MAX_SYMBOL {
        k.Fail();
        return false, 0;
      }
      level, next := next, next + 1;
      ok := true;
    }
  }
}
