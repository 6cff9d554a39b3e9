/** The frames of the locally nameless traversal, what each has established, and that each
    turn of the traversal keeps it. */
module OpeningFrames {
  import opened Lattice
  import opened Nameless
  import opened FreeNames
  import opened LocallyNameless
  import opened TermStore
  import F = Frames

  // ---- What a node records -----------------------------------------------------------------

  /** One more than the greatest index that reaches out of a node, as it is recorded when
      the node is made. */
  function LooseAt(nodes: seq<Syntax>, h: nat): nat {
    if h == 0 || h >= |nodes| then 0 else
    var n := nodes[h];
    Max(if n.kind == BOUND then n.payload + 1 else 0,
        Max(if n.a < h then LooseAt(nodes, n.a) else 0,
            Max(Out(n.kind, if n.b < h then LooseAt(nodes, n.b) else 0), if n.c < h then LooseAt(nodes, n.c) else 0)))
  }

  /** One more than the greatest opened level. */
  function LevelsAt(nodes: seq<Syntax>, h: nat): nat {
    if h == 0 || h >= |nodes| then 0 else
    var n := nodes[h];
    Max(if n.kind == OPENED then n.payload + 1 else 0,
        Max(if n.a < h then LevelsAt(nodes, n.a) else 0,
            Max(if n.b < h then LevelsAt(nodes, n.b) else 0, if n.c < h then LevelsAt(nodes, n.c) else 0)))
  }

  /** A node's form from its children's, index for index. */
  lemma NodeForms(w: F.World, n: Syntax)
    requires n.a < |w.meaning| && n.b < |w.meaning| && n.c < |w.meaning| && n.kind != VAR
    ensures var m := NodeForm(w.formulas, w.meaning, n);
            && m != Absent && m.kind == n.kind
            && SameIndices(m.a, w.meaning[n.a]) && SameIndices(m.b, w.meaning[n.b]) && SameIndices(m.c, w.meaning[n.c])
  {
    NodeIndices(n.kind, n.payload, TagOf(w.formulas, n.kind, n.payload), w.meaning[n.a], w.meaning[n.b],
                w.meaning[n.c]);
  }

  /** A leaf's form. */
  lemma LeafForm(w: F.World, h: nat)
    requires F.WorldOk(w) && 0 < h < |w.nodes|
    ensures var n := w.nodes[h];
            && (n.kind in {BOUND, OPENED, CONTEXT, LEAF} ==> w.meaning[h] == Leaf(n.kind, n.payload))
            && w.meaning[h] != Absent && w.meaning[h].kind == n.kind
  {
    F.TermNodeOk(w, h);
  }

  lemma {:induction false} LooseRecorded(w: F.World, h: nat)
    requires F.WorldOk(w) && h < |w.nodes|
    ensures LooseAt(w.nodes, h) == Loose(w.meaning[h])
    decreases h
  {
    if h > 0 {
      F.TermNodeOk(w, h);
      LeafForm(w, h);
      var n := w.nodes[h];
      if n.kind != VAR {
        NodeForms(w, n);
        SameLoose(w.meaning[h].a, w.meaning[n.a]);
        SameLoose(w.meaning[h].b, w.meaning[n.b]);
        SameLoose(w.meaning[h].c, w.meaning[n.c]);
        LooseRecorded(w, n.a);
        LooseRecorded(w, n.b);
        LooseRecorded(w, n.c);
      }
    }
  }

  lemma {:induction false} LevelsRecorded(w: F.World, h: nat)
    requires F.WorldOk(w) && h < |w.nodes|
    ensures LevelsAt(w.nodes, h) == Levels(w.meaning[h])
    decreases h
  {
    if h > 0 {
      F.TermNodeOk(w, h);
      LeafForm(w, h);
      var n := w.nodes[h];
      if n.kind != VAR {
        NodeForms(w, n);
        SameLevels(w.meaning[h].a, w.meaning[n.a]);
        SameLevels(w.meaning[h].b, w.meaning[n.b]);
        SameLevels(w.meaning[h].c, w.meaning[n.c]);
        LevelsRecorded(w, n.a);
        LevelsRecorded(w, n.b);
        LevelsRecorded(w, n.c);
      }
    }
  }

  // ---- Capture ----------------------------------------------------------------------------------

  /** Which of `count` values are put somewhere. */
  function Placed(s: Skeleton, d: nat, count: nat): set<nat> {
    if s == NoBone || s.kind == VAR then {}
    else if s.kind == BOUND then (if d <= s.name < d + count then {s.name - d} else {})
    else Placed(s.a, d, count) + Placed(s.b, Into(s.kind, d), count) + Placed(s.c, d, count)
  }

  /** Some named LAM or PI is above a place where a value is put, and its name is free in the
      value. */
  ghost predicate Captured(s: Skeleton, d: nat, values: seq<Form>) {
    s != NoBone && s.kind != VAR && s.kind != BOUND &&
    (Captured(s.a, d, values) || Captured(s.b, Into(s.kind, d), values) || Captured(s.c, d, values)
     || (TermBinder(s.kind)
         && exists i :: i in Placed(s.b, d + 1, |values|) && i < |values| && s.name in FreeTerms(values[i])))
  }

  lemma {:induction false} PlacedInserted(w: F.World, h: nat, d: nat, count: nat)
    requires F.WorldOk(w) && h < |w.nodes|
    ensures Placed(w.bones[h], d, count) == Inserted(w.meaning[h], d, count)
    decreases h
  {
    if h > 0 {
      F.TermNodeOk(w, h);
      LeafForm(w, h);
      assert BoneOk(w.nodes, w.bones, h);
      var n, m := w.nodes[h], w.meaning[h];
      if n.kind == BOUND {
        assert IsLeaf(m, BOUND);
      } else if n.kind != VAR {
        NodeForms(w, n);
        PlacedInserted(w, n.a, d, count);
        PlacedInserted(w, n.b, Into(n.kind, d), count);
        PlacedInserted(w, n.c, d, count);
        SameInserted(m.a, w.meaning[n.a], d, count);
        SameInserted(m.b, w.meaning[n.b], Into(n.kind, d), count);
        SameInserted(m.c, w.meaning[n.c], d, count);
      }
    }
  }

  /** Whether something is captured in a node, by its children and its own binder. */
  lemma CapturedNode(w: F.World, t: nat, base: Syntax, d: nat, values: seq<Form>)
    requires F.WorldOk(w) && 0 < t < |w.nodes| && F.Boned(w, base, t, 0) && base.kind != VAR && base.kind != BOUND
    requires base.a < |w.nodes| && base.b < |w.nodes| && base.c < |w.nodes|
    ensures Captured(w.bones[t], d, values) <==>
              || Captured(w.bones[base.a], d, values) || Captured(w.bones[base.b], Into(base.kind, d), values)
              || Captured(w.bones[base.c], d, values)
              || BinderCaptures(base.kind, base.payload, w.meaning[base.b], d, values)
  {
    assert BoneOk(w.nodes, w.bones, t);
    PlacedInserted(w, base.b, d + 1, |values|);
  }

  lemma {:induction false} CapturedPlaced(s: Skeleton, d: nat, values: seq<Form>)
    ensures Placed(s, d, |values|) == {} ==> !Captured(s, d, values)
  {
    if s != NoBone && s.kind != VAR && s.kind != BOUND {
      CapturedPlaced(s.a, d, values);
      CapturedPlaced(s.b, Into(s.kind, d), values);
      CapturedPlaced(s.c, d, values);
    }
  }

  /** Nothing is put into a closed term, so nothing is captured. */
  lemma ClosedUncaptured(w: F.World, t: nat, d: nat, values: seq<Form>)
    requires F.WorldOk(w) && t < |w.nodes| && Loose(w.meaning[t]) <= d
    ensures !Captured(w.bones[t], d, values)
  {
    forall i: nat | i < |values| ensures i !in Inserted(w.meaning[t], d, |values|) {
      InsertedOccurs(w.meaning[t], d, |values|, i);
      LooseCovers(w.meaning[t], d + i);
    }
    PlacedInserted(w, t, d, |values|);
    CapturedPlaced(w.bones[t], d, values);
  }

  /** A leaf captures nothing. */
  lemma LeafUncaptured(w: F.World, t: nat, d: nat, values: seq<Form>)
    requires F.WorldOk(w) && 0 < t < |w.nodes| && Arity(w.nodes[t].kind) == 0
    ensures !Captured(w.bones[t], d, values)
  {
    F.TermNodeOk(w, t);
    assert BoneOk(w.nodes, w.bones, t);
  }

  lemma NothingCaptured(s: Skeleton, d: nat)
    ensures !Captured(s, d, [])
  {
    CapturedPlaced(s, d, []);
    NothingPlaced(s, d);
  }

  lemma {:induction false} NothingPlaced(s: Skeleton, d: nat)
    ensures Placed(s, d, 0) == {}
  {
    if s != NoBone && s.kind != VAR && s.kind != BOUND {
      NothingPlaced(s.a, d);
      NothingPlaced(s.b, Into(s.kind, d));
      NothingPlaced(s.c, d);
    }
  }

  /** Values without term names are captured by nothing. */
  lemma {:induction false} NamelessUncaptured(s: Skeleton, d: nat, values: seq<Form>)
    requires forall i :: 0 <= i < |values| ==> FreeTerms(values[i]) == {}
    ensures !Captured(s, d, values)
  {
    if s != NoBone && s.kind != VAR && s.kind != BOUND {
      NamelessUncaptured(s.a, d, values);
      NamelessUncaptured(s.b, Into(s.kind, d), values);
      NamelessUncaptured(s.c, d, values);
    }
  }

  /** The input at which instantiation captures: in LAM x. BOUND(1), index 0 of the whole
      replaced by the variable x, which is locally closed. */
  lemma NamedLambdaCaptures(x: nat, typ: Skeleton)
    ensures Loose(Variable(Free(x))) == 0
    ensures Captured(Bone(LAM, x, typ, Bone(BOUND, 1, NoBone, NoBone, NoBone), NoBone), 0, [Variable(Free(x))])
  {
    var body, v := Bone(BOUND, 1, NoBone, NoBone, NoBone), Variable(Free(x));
    assert 0 in Placed(body, 0 + 1, |[v]|) && x in FreeTerms([v][0]);
  }

  lemma ExactItself(m: Form, r: Form)
    requires forall x :: Count(m, x) <= Count(r, x)
    ensures Exact(m, r, r, false)
  {
  }

  // ---- Instantiations and abstractions -------------------------------------------------------

  /** `values[i]` for the index `i`, or an index for a context entry or an opened level. */
  datatype Job = Instantiating(values: seq<nat>) | Abstracting(kind: Kind, payload: nat)

  ghost predicate JobOk(w: F.World, job: Job) {
    match job
    case Instantiating(values) => values != [] && forall i :: 0 <= i < |values| ==> 0 < values[i] < |w.meaning|
    case Abstracting(kind, _) => kind == OPENED || kind == CONTEXT
  }

  ghost function FormsOf(w: F.World, values: seq<nat>): seq<Form>
    requires forall i :: 0 <= i < |values| ==> values[i] < |w.meaning|
  {
    seq(|values|, i requires 0 <= i < |values| => w.meaning[values[i]])
  }

  ghost function Goal(w: F.World, job: Job, m: Form, d: nat): Form
    requires JobOk(w, job)
  {
    match job
    case Instantiating(values) => Instantiate(m, d, FormsOf(w, values))
    case Abstracting(kind, payload) => Abstract(m, d, Leaf(kind, payload))
  }

  /** `r` answers for `t` under `d` binders: it has the goal's form, unless a binder that
      carries a term name captures. A tube list stays one in any case. */
  ghost predicate Answers(w: F.World, job: Job, t: nat, d: nat, r: nat) {
    true ==
      (JobOk(w, job) && t < |w.nodes| == |w.meaning| == |w.bones| && r < |w.nodes| && (t == 0 <==> r == 0)
       && (t != 0 && w.nodes[t].kind == TUBE ==> w.nodes[r].kind == TUBE)
       && match job
          case Instantiating(values) =>
            Exact(w.meaning[t], w.meaning[r], Goal(w, job, w.meaning[t], d),
                  Captured(w.bones[t], d, FormsOf(w, values)))
          case Abstracting(_, _) => w.meaning[r] == Goal(w, job, w.meaning[t], d))
  }

  lemma JobStable(w: F.World, w': F.World, job: Job)
    requires JobOk(w, job) && F.Later(w, w')
    ensures JobOk(w', job)
    ensures job.Instantiating? ==> FormsOf(w', job.values) == FormsOf(w, job.values)
  {
    if job.Instantiating? {
      forall i | 0 <= i < |job.values| ensures w'.meaning[job.values[i]] == w.meaning[job.values[i]] {}
      assert FormsOf(w', job.values) == FormsOf(w, job.values);
    }
  }

  lemma AnswersStable(w: F.World, w': F.World, job: Job, t: nat, d: nat, r: nat)
    requires Answers(w, job, t, d, r) && F.Later(w, w') && |w'.nodes| == |w'.meaning| == |w'.bones|
    ensures Answers(w', job, t, d, r)
  {
    JobStable(w, w', job);
  }

  // ---- Nodes that nothing happens to ----------------------------------------------------------

  /** Whether a node may be changed, from what it records. */
  predicate Mentioned(nodes: seq<Syntax>, symbols: seq<set<nat>>, job: Job, t: nat, d: nat)
    requires t < |nodes| == |symbols|
  {
    match job
    case Instantiating(_) => LooseAt(nodes, t) > d
    case Abstracting(kind, payload) =>
      if kind == OPENED then LevelsAt(nodes, t) > payload else payload % FILTER in symbols[t]
  }

  lemma Unmentioned(w: F.World, symbols: seq<set<nat>>, masks: seq<set<nat>>, known: seq<bool>, job: Job, t: nat,
                    d: nat)
    requires F.WorldOk(w) && JobOk(w, job) && 0 < t < |w.nodes| && MasksOk(w.meaning, symbols, masks, known)
    requires !Mentioned(w.nodes, symbols, job, t, d)
    ensures Answers(w, job, t, d, t)
  {
    match job
    case Instantiating(values) =>
      LooseRecorded(w, t);
      InstantiateClosed(w.meaning[t], d, FormsOf(w, values));
      ClosedUncaptured(w, t, d, FormsOf(w, values));
      ExactItself(w.meaning[t], w.meaning[t]);
    case Abstracting(kind, payload) =>
      if kind == OPENED {
        LevelsRecorded(w, t);
        LevelsCover(w.meaning[t], payload);
      } else {
        assert FilterOk(symbols[t], w.meaning[t]);
        EntriesCover(w.meaning[t], payload);
      }
      AbstractAbsent(w.meaning[t], d, Leaf(kind, payload));
  }

  /** A leaf that is no index within reach and not the reference. */
  lemma LeafKept(w: F.World, job: Job, t: nat, d: nat)
    requires F.WorldOk(w) && JobOk(w, job) && 0 < t < |w.nodes| && Arity(w.nodes[t].kind) == 0
    requires job.Instantiating? ==>
               w.nodes[t].kind != BOUND || w.nodes[t].payload < d || w.nodes[t].payload >= d + |job.values|
    requires job.Abstracting? ==> w.nodes[t].kind != job.kind || w.nodes[t].payload != job.payload
    ensures Answers(w, job, t, d, t)
  {
    F.TermNodeOk(w, t);
    LeafForm(w, t);
    var m := w.meaning[t];
    assert m.kind == VAR || m == Leaf(m.kind, w.nodes[t].payload);
    match job
    case Instantiating(values) =>
      assert m.kind == BOUND ==> IsLeaf(m, BOUND);
      assert Instantiate(m, d, FormsOf(w, values)) == m;
      LeafUncaptured(w, t, d, FormsOf(w, values));
      ExactItself(m, m);
    case Abstracting(kind, payload) =>
      assert Abstract(m, d, Leaf(kind, payload)) == m;
  }

  lemma IndexReplaced(w: F.World, job: Job, t: nat, d: nat)
    requires F.WorldOk(w) && JobOk(w, job) && 0 < t < |w.nodes| && job.Instantiating?
    requires w.nodes[t].kind == BOUND && d <= w.nodes[t].payload < d + |job.values|
    ensures Answers(w, job, t, d, job.values[w.nodes[t].payload - d])
  {
    LeafForm(w, t);
    LeafUncaptured(w, t, d, FormsOf(w, job.values));
    var v := FormsOf(w, job.values)[w.nodes[t].payload - d];
    forall x ensures Count(w.meaning[t], x) <= Count(v, x) { assert Count(Absent, x) == 0; }
    ExactItself(w.meaning[t], v);
  }

  lemma ReferenceBound(w: F.World, job: Job, t: nat, d: nat, r: nat)
    requires F.WorldOk(w) && JobOk(w, job) && 0 < t < |w.nodes| && job.Abstracting? && 0 < r < |w.nodes|
    requires w.nodes[t].kind == job.kind && w.nodes[t].payload == job.payload
    requires w.nodes[r] == Syntax(BOUND, d, 0, 0, 0)
    ensures Answers(w, job, t, d, r)
  {
    LeafForm(w, t);
    LeafForm(w, r);
  }

  // ---- Frames ----------------------------------------------------------------------------------

  /** A node being rebuilt: `base` is the node, its dimension binder renamed where it would
      capture, and `node` has its first children replaced. */
  datatype Frame = Frame(term: nat, depth: nat, prepared: bool, base: Syntax, node: Syntax, next: nat, waiting: bool)

  function Start(t: nat, d: nat): Frame {
    Frame(t, d, false, Syntax(LEAF, 0, 0, 0, 0), Syntax(LEAF, 0, 0, 0, 0), 0, false)
  }

  function ChildDepth(kind: Kind, d: nat, i: nat): nat { if i == 1 then Into(kind, d) else d }

  /** The node's dimension binder captures no dimension of a value that is put under it. */
  ghost predicate Uncaptured(w: F.World, job: Job, n: Syntax, d: nat)
    requires JobOk(w, job) && n.a < |w.meaning| && n.b < |w.meaning|
  {
    job.Instantiating? ==>
      && (BindsFirst(n.kind) ==> Spared(w.meaning[n.a], d, FormsOf(w, job.values), n.payload))
      && (BindsTubes(n.kind) || BindsSecond(n.kind) ==> Spared(w.meaning[n.b], d, FormsOf(w, job.values), n.payload))
  }

  ghost predicate ChildOk(w: F.World, job: Job, f: Frame, i: nat)
    requires i < 3
  {
    if i < f.next && !(f.waiting && i == f.next - 1)
    then Answers(w, job, Child(f.base, i), ChildDepth(f.base.kind, f.depth, i), Child(f.node, i))
    else Child(f.node, i) == Child(f.base, i)
  }

  ghost predicate PreparedOk(w: F.World, job: Job, f: Frame)
    requires F.WorldOk(w) && JobOk(w, job) && 0 < f.term < |w.nodes|
  {
    && SyntaxOk(w.nodes, w.formulas, f.base, |w.nodes|) && F.Boned(w, f.base, f.term, 0)
    && w.meaning[f.term] == NodeForm(w.formulas, w.meaning, f.base) && Uncaptured(w, job, f.base, f.depth)
    && f.node.kind == f.base.kind && f.node.payload == f.base.payload
    && ChildOk(w, job, f, 0) && ChildOk(w, job, f, 1) && ChildOk(w, job, f, 2)
  }

  /** Compared to `true` so that it is proved as one fact. */
  ghost predicate FrameOk(w: F.World, job: Job, f: Frame) {
    true ==
      (F.WorldOk(w) && JobOk(w, job) && 0 < f.term < |w.nodes| && Arity(w.nodes[f.term].kind) > 0
       && f.next <= Arity(w.nodes[f.term].kind) && (f.waiting ==> f.next > 0)
       && if f.prepared then PreparedOk(w, job, f) else f.next == 0)
  }

  lemma ChildStable(w: F.World, w': F.World, job: Job, f: Frame, i: nat)
    requires i < 3 && ChildOk(w, job, f, i) && F.Later(w, w') && |w'.nodes| == |w'.meaning| == |w'.bones|
    ensures ChildOk(w', job, f, i)
  {
    if i < f.next && !(f.waiting && i == f.next - 1) {
      AnswersStable(w, w', job, Child(f.base, i), ChildDepth(f.base.kind, f.depth, i), Child(f.node, i));
    }
  }

  lemma FrameStable(w: F.World, w': F.World, job: Job, f: Frame)
    requires FrameOk(w, job, f) && F.Later(w, w') && F.WorldOk(w')
    ensures FrameOk(w', job, f)
  {
    JobStable(w, w', job);
    if f.prepared {
      F.SyntaxStable(w, w', f.base);
      F.BonedStable(w, w', f.base, f.term, 0);
      TagStable(w.formulas, w'.formulas, f.base);
      ChildStable(w, w', job, f, 0);
      ChildStable(w, w', job, f, 1);
      ChildStable(w, w', job, f, 2);
    }
  }

  // ---- Preparing a frame -----------------------------------------------------------------------

  function Prepared(f: Frame, base: Syntax): Frame { f.(prepared := true, base := base, node := base) }

  lemma PreparedFrame(w: F.World, job: Job, f: Frame, base: Syntax)
    requires FrameOk(w, job, f) && !f.prepared && F.Boned(w, base, f.term, 0)
    requires SyntaxOk(w.nodes, w.formulas, base, |w.nodes|)
    requires w.meaning[f.term] == NodeForm(w.formulas, w.meaning, base)
    requires Uncaptured(w, job, base, f.depth)
    ensures FrameOk(w, job, Prepared(f, base))
  {
  }

  /** Every dimension of a value put where the binder binds is among `dims`. */
  ghost predicate CoversDims(w: F.World, job: Job, n: Syntax, d: nat, dims: set<nat>)
    requires JobOk(w, job) && job.Instantiating? && n.a < |w.meaning| && n.b < |w.meaning|
  {
    && (BindsFirst(n.kind) ==> CoversChild(w, job, n.a, d, dims))
    && (BindsTubes(n.kind) || BindsSecond(n.kind) ==> CoversChild(w, job, n.b, d, dims))
  }

  ghost predicate CoversChild(w: F.World, job: Job, child: nat, d: nat, dims: set<nat>)
    requires JobOk(w, job) && job.Instantiating? && child < |w.meaning|
  {
    forall i :: i in Inserted(w.meaning[child], d, |job.values|) ==> FreeDims(w.meaning[job.values[i]]) <= dims
  }

  lemma CoveredSpared(w: F.World, job: Job, child: nat, m: Form, d: nat, dims: set<nat>, e: nat)
    requires F.WorldOk(w) && JobOk(w, job) && job.Instantiating? && child < |w.meaning|
    requires CoversChild(w, job, child, d, dims)
    requires SameIndices(w.meaning[child], m) && e !in dims
    ensures Spared(m, d, FormsOf(w, job.values), e)
  {
    SameInserted(w.meaning[child], m, d, |job.values|);
    forall i | i in Inserted(m, d, |job.values|)
      ensures Canonic(FormsOf(w, job.values)[i]) && !DimFree(FormsOf(w, job.values)[i], e)
    {
      ChildStandalone(w.nodes, w.meaning, w.formulas, job.values[i]);
      FreeDimsAreFree(w.meaning[job.values[i]], e);
    }
  }

  lemma CoveredUncaptured(w: F.World, job: Job, n: Syntax, d: nat, dims: set<nat>)
    requires F.WorldOk(w) && JobOk(w, job) && job.Instantiating? && n.a < |w.meaning| && n.b < |w.meaning|
    requires CoversDims(w, job, n, d, dims) && n.payload !in dims
    ensures Uncaptured(w, job, n, d)
  {
    SameItself(w.meaning[n.a]);
    SameItself(w.meaning[n.b]);
    if BindsFirst(n.kind) { CoveredSpared(w, job, n.a, w.meaning[n.a], d, dims, n.payload); }
    if BindsTubes(n.kind) || BindsSecond(n.kind) { CoveredSpared(w, job, n.b, w.meaning[n.b], d, dims, n.payload); }
  }

  /** The binder renamed to a dimension that neither the node nor a value put under it has. */
  lemma RenamedBase(w: F.World, job: Job, t: nat, n: Syntax, base: Syntax, d: nat, dims: set<nat>)
    requires F.WorldOk(w) && JobOk(w, job) && job.Instantiating? && 0 < t < |w.nodes|
    requires SyntaxOk(w.nodes, w.formulas, n, |w.nodes|) && SyntaxOk(w.nodes, w.formulas, base, |w.nodes|)
    requires w.meaning[t] == NodeForm(w.formulas, w.meaning, n) && DimBinder(n.kind) && CoversDims(w, job, n, d, dims)
    requires base.kind == n.kind && base.payload !in dims && base.payload !in FreeDims(w.meaning[t])
    requires base.payload != n.payload
    requires base.c == n.c
    requires w.meaning[base.a] == F.RenamedFirst(n.kind, n.payload, base.payload, w.meaning[n.a])
    requires w.meaning[base.b] == F.RenamedSecond(n.kind, n.payload, base.payload, w.meaning[n.b])
    ensures w.meaning[t] == NodeForm(w.formulas, w.meaning, base) && Uncaptured(w, job, base, d)
  {
    RenamedForm(w, t, n, base);
    RenamedDim(w.meaning[n.a], n.payload, Dimension(base.payload));
    RenamedDim(w.meaning[n.b], n.payload, Dimension(base.payload));
    if BindsFirst(n.kind) { CoveredSpared(w, job, n.a, w.meaning[base.a], d, dims, base.payload); }
    if BindsTubes(n.kind) || BindsSecond(n.kind) {
      CoveredSpared(w, job, n.b, w.meaning[base.b], d, dims, base.payload);
    }
  }

  lemma RenamedForm(w: F.World, t: nat, n: Syntax, base: Syntax)
    requires F.WorldOk(w) && 0 < t < |w.nodes|
    requires SyntaxOk(w.nodes, w.formulas, n, |w.nodes|) && SyntaxOk(w.nodes, w.formulas, base, |w.nodes|)
    requires w.meaning[t] == NodeForm(w.formulas, w.meaning, n) && DimBinder(n.kind) && base.kind == n.kind
    requires base.c == n.c
    requires base.payload !in FreeDims(w.meaning[t]) && base.payload != n.payload
    requires w.meaning[base.a] == F.RenamedFirst(n.kind, n.payload, base.payload, w.meaning[n.a])
    requires w.meaning[base.b] == F.RenamedSecond(n.kind, n.payload, base.payload, w.meaning[n.b])
    ensures w.meaning[t] == NodeForm(w.formulas, w.meaning, base)
  {
    NodeNames(w.nodes, w.meaning, w.formulas, n);
    ListDimsBound(w.meaning[n.b], n.payload);
    FreeDimsAreFree(w.meaning[n.a], base.payload);
    FreeDimsAreFree(w.meaning[n.b], base.payload);
    RenameDimNode(n.kind, n.payload, base.payload, TagOf(w.formulas, n.kind, n.payload), w.meaning[n.a], w.meaning[n.b],
                  w.meaning[n.c]);
  }

  // ---- Rebuilding the children ------------------------------------------------------------------

  /** The child that a frame waits for. */
  ghost predicate Waits(f: Frame, t: nat, d: nat) {
    f.prepared && f.waiting && 0 < f.next <= 3 && t == Child(f.base, f.next - 1)
        && d == ChildDepth(f.base.kind, f.depth, f.next - 1)
  }

  ghost predicate Awaited(w: F.World, job: Job, f: Frame, r: nat) {
    f.prepared && f.waiting && 0 < f.next <= 3
    && Answers(w, job, Child(f.base, f.next - 1), ChildDepth(f.base.kind, f.depth, f.next - 1), r)
  }

  function Filled(f: Frame, r: nat): Frame {
    if f.waiting && 0 < f.next <= 3 then f.(node := WithChild(f.node, f.next - 1, r), waiting := false) else f
  }

  lemma FilledOk(w: F.World, job: Job, f: Frame, r: nat)
    requires FrameOk(w, job, f) && (f.waiting ==> Awaited(w, job, f, r))
    ensures FrameOk(w, job, Filled(f, r))
  {
    var g := Filled(f, r);
    if f.prepared && f.waiting {
      assert ChildOk(w, job, g, 0) && ChildOk(w, job, g, 1) && ChildOk(w, job, g, 2);
    }
  }

  /** The next child is asked for. */
  lemma NextWaits(w: F.World, job: Job, f: Frame)
    requires FrameOk(w, job, f) && f.prepared && !f.waiting && f.next < Arity(f.base.kind)
    ensures FrameOk(w, job, f.(next := f.next + 1, waiting := true))
    ensures Child(f.node, f.next) == Child(f.base, f.next) < |w.nodes|
  {
    var g := f.(next := f.next + 1, waiting := true);
    assert ChildOk(w, job, f, f.next);
    assert ChildOk(w, job, g, 0) && ChildOk(w, job, g, 1) && ChildOk(w, job, g, 2);
  }

  /** A child past the arity is empty, and so is its answer. */
  lemma EmptyAnswer(w: F.World, job: Job, d: nat)
    requires F.WorldOk(w) && JobOk(w, job)
    ensures Answers(w, job, 0, d, 0)
  {
  }

  lemma ChildrenDone(w: F.World, job: Job, f: Frame)
    requires FrameOk(w, job, f) && f.prepared && !f.waiting && f.next == Arity(f.base.kind)
    ensures Answers(w, job, f.base.a, f.depth, f.node.a)
    ensures Answers(w, job, f.base.b, Into(f.base.kind, f.depth), f.node.b)
    ensures Answers(w, job, f.base.c, f.depth, f.node.c)
    ensures SyntaxOk(w.nodes, w.formulas, f.node, |w.nodes|)
  {
    EmptyAnswer(w, job, f.depth);
    assert ChildOk(w, job, f, 0) && ChildOk(w, job, f, 1) && ChildOk(w, job, f, 2);
  }

  lemma RebuiltInstantiated(w: F.World, job: Job, f: Frame)
    requires FrameOk(w, job, f) && f.prepared && !f.waiting && f.next == Arity(f.base.kind) && job.Instantiating?
    ensures f.node.a < |w.meaning| && f.node.b < |w.meaning| && f.node.c < |w.meaning| && f.term < |w.bones|
    ensures Exact(w.meaning[f.term], NodeForm(w.formulas, w.meaning, f.node), Goal(w, job, w.meaning[f.term], f.depth),
                  Captured(w.bones[f.term], f.depth, FormsOf(w, job.values)))
  {
    ChildrenDone(w, job, f);
    var n, d, tag, vs := f.base, f.depth, TagOf(w.formulas, f.base.kind, f.base.payload), FormsOf(w, job.values);
    CapturedNode(w, f.term, n, d, vs);
    ExactNode(n.kind, n.payload, tag, w.meaning[n.a], w.meaning[n.b], w.meaning[n.c],
              w.meaning[f.node.a], w.meaning[f.node.b], w.meaning[f.node.c], d, vs,
              Captured(w.bones[n.a], d, vs), Captured(w.bones[n.b], Into(n.kind, d), vs),
                  Captured(w.bones[n.c], d, vs));
  }

  lemma RebuiltAbstracted(w: F.World, job: Job, f: Frame)
    requires FrameOk(w, job, f) && f.prepared && !f.waiting && f.next == Arity(f.base.kind) && job.Abstracting?
    ensures f.node.a < |w.meaning| && f.node.b < |w.meaning| && f.node.c < |w.meaning|
    ensures NodeForm(w.formulas, w.meaning, f.node) == Goal(w, job, w.meaning[f.term], f.depth)
  {
    ChildrenDone(w, job, f);
    var n, tag := f.base, TagOf(w.formulas, f.base.kind, f.base.payload);
    AbstractNode(n.kind, n.payload, tag, w.meaning[n.a], w.meaning[n.b], w.meaning[n.c], f.depth,
                 Leaf(job.kind, job.payload));
  }

  /** The rebuilt node answers for the term. */
  lemma RebuiltOk(w: F.World, job: Job, f: Frame, w': F.World, r: nat)
    requires FrameOk(w, job, f) && f.prepared && !f.waiting && f.next == Arity(f.base.kind)
    requires F.Later(w, w') && F.WorldOk(w') && 0 < r < |w'.nodes| && w'.nodes[r] == f.node && w'.formulas == w.formulas
    ensures Answers(w', job, f.term, f.depth, r)
  {
    JobStable(w, w', job);
    F.TermNodeOk(w', r);
    if job.Instantiating? { RebuiltInstantiated(w, job, f); } else { RebuiltAbstracted(w, job, f); }
  }

  // ---- The stack ---------------------------------------------------------------------------------

  ghost predicate AllOk(w: F.World, job: Job, frames: seq<Frame>) {
    forall i :: 0 <= i < |frames| ==> FrameOk(w, job, frames[i])
  }

  ghost predicate Linked(frames: seq<Frame>) {
    forall i :: 0 <= i < |frames| - 1 ==> Waits(frames[i], frames[i + 1].term, frames[i + 1].depth)
  }

  ghost predicate Stacked(w: F.World, job: Job, frames: seq<Frame>, root: nat) {
    AllOk(w, job, frames) && Linked(frames) && (frames != [] ==> frames[0].term == root && frames[0].depth == 0)
  }

  ghost predicate Running(w: F.World, job: Job, frames: seq<Frame>, root: nat, last: nat) {
    && Stacked(w, job, frames, root)
    && (frames == [] ==> Answers(w, job, root, 0, last))
    && (frames != [] && frames[|frames| - 1].waiting ==> Awaited(w, job, frames[|frames| - 1], last))
  }

  lemma StackedLater(w: F.World, w': F.World, job: Job, frames: seq<Frame>, root: nat)
    requires Stacked(w, job, frames, root) && F.Later(w, w') && F.WorldOk(w')
    ensures Stacked(w', job, frames, root)
  {
    forall i | 0 <= i < |frames| ensures FrameOk(w', job, frames[i]) { FrameStable(w, w', job, frames[i]); }
  }

  /** The same stack with another top frame for the same term. */
  lemma {:induction false} TopReplaced(w: F.World, job: Job, frames: seq<Frame>, root: nat, g: Frame)
    requires frames != [] && Stacked(w, job, frames, root) && FrameOk(w, job, g)
    requires g.term == frames[|frames| - 1].term && g.depth == frames[|frames| - 1].depth
    ensures Stacked(w, job, frames[..|frames| - 1] + [g], root)
  {
    var next := frames[..|frames| - 1] + [g];
    forall i | 0 <= i < |next| - 1 ensures Waits(next[i], next[i + 1].term, next[i + 1].depth) {
      assert next[i] == frames[i] && Waits(frames[i], frames[i + 1].term, frames[i + 1].depth);
    }
  }

  lemma TopFilled(w: F.World, job: Job, frames: seq<Frame>, root: nat, last: nat)
    requires frames != [] && Running(w, job, frames, root, last)
    ensures Stacked(w, job, frames[..|frames| - 1] + [Filled(frames[|frames| - 1], last)], root)
  {
    var top := frames[|frames| - 1];
    FilledOk(w, job, top, last);
    TopReplaced(w, job, frames, root, Filled(top, last));
  }

  /** The top frame asks for its next child. */
  function Asking(f: Frame): Frame { f.(next := f.next + 1, waiting := true) }

  lemma TopAsks(w: F.World, job: Job, frames: seq<Frame>, root: nat)
    requires frames != [] && Stacked(w, job, frames, root)
    requires var f := frames[|frames| - 1]; f.prepared && !f.waiting && f.next < Arity(f.base.kind)
    ensures var f := frames[|frames| - 1];
            && f.next < 3 && Child(f.node, f.next) == Child(f.base, f.next) < |w.nodes| && JobOk(w, job)
            && Stacked(w, job, frames[..|frames| - 1] + [Asking(f)], root)
  {
    var f := frames[|frames| - 1];
    NextWaits(w, job, f);
    TopReplaced(w, job, frames, root, Asking(f));
  }

  lemma {:induction false} TopPushed(w: F.World, job: Job, frames: seq<Frame>, root: nat, t: nat, d: nat)
    requires frames != [] && Stacked(w, job, frames, root) && Waits(frames[|frames| - 1], t, d)
    requires FrameOk(w, job, Start(t, d))
    ensures Stacked(w, job, frames + [Start(t, d)], root)
  {
    var next := frames + [Start(t, d)];
    forall i | 0 <= i < |next| - 1 ensures Waits(next[i], next[i + 1].term, next[i + 1].depth) {
      if i < |frames| - 1 { assert Waits(frames[i], frames[i + 1].term, frames[i + 1].depth); }
    }
  }

  lemma {:induction false} TopPopped(w: F.World, job: Job, frames: seq<Frame>, root: nat, r: nat)
    requires frames != [] && Stacked(w, job, frames, root)
    requires Answers(w, job, frames[|frames| - 1].term, frames[|frames| - 1].depth, r)
    ensures Running(w, job, frames[..|frames| - 1], root, r)
  {
    var next := frames[..|frames| - 1];
    if next != [] {
      var i := |frames| - 2;
      assert Waits(frames[i], frames[i + 1].term, frames[i + 1].depth);
    }
  }
}
