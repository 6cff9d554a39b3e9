/** term_store.c and checkpoint.c: the append-only syntax arena with its hash graph,
    checkpoint, rollback, and a commit that compacts in place. */
module Arena {
  import opened Probing
  import opened Compaction
  import opened Interning

  const INTERN_MINIMUM := 65536
  const MAX_HANDLES := 0xffffffff
  const MAX_DEPTH := 512

  datatype Definition = Definition(symbol: nat, value: nat, typ: nat)

  /** A declared type's recorded syntax, and its state at the checkpoint. */
  datatype Signature = Signature(terms: seq<nat>, constructors: seq<nat>, admitted: bool,
                                 savedConstructors: nat, savedAdmitted: bool)

  function Child(n: Node, i: nat): nat
    requires i < 4
  {
    if i == 0 then n.a else if i == 1 then n.b else if i == 2 then n.c else n.d
  }

  /** What the syntax table asks of a node made over `live` handles. */
  predicate Accepts(arity: nat -> nat, optional: (nat, nat) -> bool, live: nat, n: Node) {
    arity(n.kind) <= 4 && forall i :: 0 <= i < 4 ==> ChildAccepted(arity, optional, live, n, i)
  }

  predicate ChildAccepted(arity: nat -> nat, optional: (nat, nat) -> bool, live: nat, n: Node, i: nat)
    requires i < 4
  {
    && !(i < arity(n.kind) && Child(n, i) == 0 && !optional(n.kind, i))
    && !(Child(n, i) >= live || (i >= arity(n.kind) && Child(n, i) != 0))
  }

  /** The depth that a node records: one more than its deepest child's. */
  function Depth(nodes: seq<Node>, n: Node, live: nat): nat
    requires live <= |nodes|
    decreases live
  {
    1 + Deeper(ChildDepth(nodes, n.a, live),
               Deeper(ChildDepth(nodes, n.b, live), Deeper(ChildDepth(nodes, n.c, live), ChildDepth(nodes, n.d, live))))
  }

  function ChildDepth(nodes: seq<Node>, h: nat, live: nat): nat
    requires live <= |nodes|
    decreases live, 0
  {
    if 0 < h < live then Depth(nodes, nodes[h], h) else 0
  }

  function Deeper(a: nat, b: nat): nat { if a < b then b else a }

  lemma AcceptedChildren(arity: nat -> nat, optional: (nat, nat) -> bool, live: nat, n: Node)
    requires Accepts(arity, optional, live, n)
    ensures forall c :: c in Children(n) ==> c < live
  {
    assert ChildAccepted(arity, optional, live, n, 0) && ChildAccepted(arity, optional, live, n, 1);
    assert ChildAccepted(arity, optional, live, n, 2) && ChildAccepted(arity, optional, live, n, 3);
  }

  function DefinitionRoots(definitions: seq<Definition>): set<nat> {
    if definitions == [] then {} else
    var d := definitions[|definitions| - 1];
    DefinitionRoots(definitions[..|definitions| - 1]) + {d.value, d.typ}
  }

  function Elements(handles: seq<nat>): set<nat> { set h | h in handles }

  function SignatureRoots(signatures: seq<Signature>): set<nat> {
    if signatures == [] then {} else
    var s := signatures[|signatures| - 1];
    SignatureRoots(signatures[..|signatures| - 1]) + Elements(s.terms) + Elements(s.constructors)
  }

  ghost function References(nodes: seq<Node>, defref: nat, base: nat, i: nat): set<nat>
    requires i <= |nodes|
  {
    set h | base <= h < i && nodes[h].kind == defref
  }

  ghost predicate HandlesBelow(handles: seq<nat>, n: nat) { forall i :: 0 <= i < |handles| ==> handles[i] < n }

  function MovedHandles(kept: set<nat>, base: nat, handles: seq<nat>): seq<nat> {
    seq(|handles|, i requires 0 <= i < |handles| => Moved(kept, base, handles[i]))
  }

  /** Probing from its hash finds a handle. */
  ghost predicate Indexed(hash: Node -> nat, nodes: seq<Node>, t: seq<nat>, h: nat)
    requires h < |nodes|
  {
    |t| > 0 && Reaches(t, hash(nodes[h]) % |t|, h)
  }

  ghost predicate AllIndexed(hash: Node -> nat, nodes: seq<Node>, t: seq<nat>) {
    forall h :: 0 < h < |nodes| ==> Indexed(hash, nodes, t, h)
  }

  /** Below the checkpoint's counts, definitions and signatures refer only to syntax
      that a rollback keeps. */
  ghost predicate DefinitionValid(d: Definition, live: nat) { d.value < live && d.typ < live }

  ghost predicate DefinitionsValid(definitions: seq<Definition>, live: nat, checkpoint: nat, saved: nat) {
    && (forall i :: 0 <= i < |definitions| ==> DefinitionValid(definitions[i], live))
    && (checkpoint > 0 ==>
        saved <= |definitions| && forall i :: 0 <= i < saved ==> DefinitionValid(definitions[i], checkpoint))
  }

  ghost predicate SignatureValid(s: Signature, live: nat) {
    HandlesBelow(s.terms, live) && HandlesBelow(s.constructors, live)
  }

  ghost predicate SignaturesValid(signatures: seq<Signature>, live: nat, checkpoint: nat, saved: nat) {
    && (forall i :: 0 <= i < |signatures| ==> SignatureValid(signatures[i], live))
    && (checkpoint > 0 ==>
        saved <= |signatures| && forall i :: 0 <= i < saved ==>
          |signatures[i].constructors| >= signatures[i].savedConstructors
              && SignatureValid(Restored(signatures[i]), checkpoint))
  }

  /** What a signature says. */
  datatype Record = Record(terms: seq<nat>, constructors: seq<nat>, admitted: bool)

  /** The arena at a checkpoint. */
  datatype Snapshot = Snapshot(nodes: seq<Node>, definitions: seq<Definition>, signatures: seq<Record>)

  function Recorded(s: Signature): Record { Record(s.terms, s.constructors, s.admitted) }

  function AllRecorded(signatures: seq<Signature>): seq<Record> {
    seq(|signatures|, i requires 0 <= i < |signatures| => Recorded(signatures[i]))
  }

  /** Undoing what was made since a checkpoint gives the arena as it was there. Compared to
      `true` so that it is proved as one fact. */
  ghost predicate Recalls(was: Snapshot, nodes: seq<Node>, checkpoint: nat, definitions: seq<Definition>, from: nat,
                          signatures: seq<Signature>, saved: nat) {
    true ==
      (checkpoint <= |nodes| && nodes[..checkpoint] == was.nodes
       && from <= |definitions| && definitions[..from] == was.definitions
       && saved == |was.signatures| <= |signatures|
       && forall i :: 0 <= i < saved ==> Recorded(Restored(signatures[i])) == was.signatures[i])
  }

  /** A checkpoint recalls what is there. */
  lemma SavedRecalls(nodes: seq<Node>, definitions: seq<Definition>, signatures: seq<Signature>)
    requires forall i :: 0 <= i < |signatures| ==> SignatureValid(signatures[i], |nodes|)
    ensures Recalls(Snapshot(nodes, definitions, AllRecorded(signatures)), nodes, |nodes|, definitions, |definitions|,
                    AllSaved(signatures), |signatures|)
    ensures SignaturesValid(AllSaved(signatures), |nodes|, |nodes|, |signatures|)
  {
    var saved := AllSaved(signatures);
    forall i | 0 <= i < |signatures|
      ensures Recorded(Restored(saved[i])) == AllRecorded(signatures)[i]
      ensures SignatureValid(saved[i], |nodes|) && SignatureValid(Restored(saved[i]), |nodes|)
    {
      assert SignatureValid(signatures[i], |nodes|);
      assert Restored(saved[i]).constructors == signatures[i].constructors;
    }
  }

  ghost predicate CacheValid(cache: map<nat, nat>, live: nat) {
    forall h :: h in cache ==> h < live && cache[h] < live
  }

  function Saved(s: Signature): Signature {
    s.(savedConstructors := |s.constructors|, savedAdmitted := s.admitted)
  }

  /** A signature as it was at the checkpoint. */
  function Restored(s: Signature): Signature {
    if s.savedConstructors <= |s.constructors|
    then s.(constructors := s.constructors[..s.savedConstructors], admitted := s.savedAdmitted)
    else s
  }

  function AllSaved(signatures: seq<Signature>): seq<Signature> {
    seq(|signatures|, i requires 0 <= i < |signatures| => Saved(signatures[i]))
  }

  function AllRestored(signatures: seq<Signature>): seq<Signature> {
    seq(|signatures|, i requires 0 <= i < |signatures| => Restored(signatures[i]))
  }

  // ---- The loops of a commit ---------------------------------------------------------------

  /** The relocation array while it holds marks: 1 for each marked handle above the base. */
  ghost predicate Marks(map': array<nat>, base: nat, marked: set<nat>) reads map' {
    forall j :: 0 <= j < map'.Length ==> map'[j] == if base + j in marked then 1 else 0
  }

  method Mark(map': array<nat>, base: nat, h: nat, ghost marked: set<nat>)
    requires Marks(map', base, marked) && h < base + map'.Length
    modifies map'
    ensures Marks(map', base, marked + {h})
  {
    if h >= base { map'[h - base] := 1; }
  }

  method MarkEach(map': array<nat>, base: nat, handles: seq<nat>, ghost marked: set<nat>)
    requires Marks(map', base, marked) && HandlesBelow(handles, base + map'.Length)
    modifies map'
    ensures Marks(map', base, marked + Elements(handles))
  {
    var i := 0;
    while i < |handles|
      invariant i <= |handles| && Marks(map', base, marked + Elements(handles[..i]))
    {
      Mark(map', base, handles[i], marked + Elements(handles[..i]));
      assert marked + Elements(handles[..i]) + {handles[i]} == marked + Elements(handles[..i + 1]);
      i := i + 1;
    }
    assert handles[..i] == handles;
  }

  method MarkDefinitions(map': array<nat>, base: nat, definitions: seq<Definition>)
    requires Marks(map', base, {})
    requires forall i :: 0 <= i < |definitions| ==> DefinitionValid(definitions[i], base + map'.Length)
    modifies map'
    ensures Marks(map', base, DefinitionRoots(definitions))
  {
    var i := 0;
    while i < |definitions|
      invariant i <= |definitions| && Marks(map', base, DefinitionRoots(definitions[..i]))
    {
      ghost var marked := DefinitionRoots(definitions[..i]);
      assert definitions[..i + 1][..i] == definitions[..i];
      Mark(map', base, definitions[i].value, marked);
      Mark(map', base, definitions[i].typ, marked + {definitions[i].value});
      assert marked + {definitions[i].value} + {definitions[i].typ} == DefinitionRoots(definitions[..i + 1]);
      i := i + 1;
    }
    assert definitions[..i] == definitions;
  }

  method MarkSignatures(map': array<nat>, base: nat, signatures: seq<Signature>, ghost marked: set<nat>)
    requires Marks(map', base, marked)
    requires forall i :: 0 <= i < |signatures| ==> SignatureValid(signatures[i], base + map'.Length)
    modifies map'
    ensures Marks(map', base, marked + SignatureRoots(signatures))
  {
    var i := 0;
    assert marked + SignatureRoots(signatures[..0]) == marked;
    while i < |signatures|
      invariant i <= |signatures| && Marks(map', base, marked + SignatureRoots(signatures[..i]))
    {
      ghost var so := marked + SignatureRoots(signatures[..i]);
      assert signatures[..i + 1][..i] == signatures[..i];
      MarkEach(map', base, signatures[i].terms, so);
      MarkEach(map', base, signatures[i].constructors, so + Elements(signatures[i].terms));
      assert so + Elements(signatures[i].terms) + Elements(signatures[i].constructors)
          == marked + SignatureRoots(signatures[..i + 1]);
      i := i + 1;
    }
    assert signatures[..i] == signatures;
  }

  method MarkReferences(map': array<nat>, base: nat, nodes: seq<Node>, defref: nat, ghost marked: set<nat>)
    requires Marks(map', base, marked) && base <= |nodes| == base + map'.Length
    modifies map'
    ensures Marks(map', base, marked + References(nodes, defref, base, |nodes|))
  {
    var i := base;
    assert marked + References(nodes, defref, base, base) == marked;
    while i < |nodes|
      invariant base <= i <= |nodes| && Marks(map', base, marked + References(nodes, defref, base, i))
    {
      if nodes[i].kind == defref { map'[i - base] := 1; }
      i := i + 1;
    }
  }

  /** Marked, when the backward pass has visited the handles from `i` up. */
  ghost predicate MarkedAt(nodes: seq<Node>, roots: set<nat>, i: nat, h: nat) {
    h in roots || exists p: nat :: h < p < |nodes| && i <= p && Kept(nodes, roots, p) && h in Children(nodes[p])
  }

  /** One backward pass marks everything reachable: children precede their parents. */
  method MarkReachable(map': array<nat>, base: nat, nodes: seq<Node>, ghost roots: set<nat>)
    requires Backward(nodes) && 0 < base <= |nodes| == base + map'.Length && Marks(map', base, roots)
    modifies map'
    ensures Marks(map', base, KeptFrom(nodes, roots, base))
  {
    var i := |nodes|;
    while i > base
      invariant base <= i <= |nodes|
      invariant forall h :: base <= h < |nodes| ==> map'[h - base] == if MarkedAt(nodes, roots, i, h) then 1 else 0
    {
      i := i - 1;
      ghost var was := map'[..];
      assert MarkedAt(nodes, roots, i + 1, i) <==> Kept(nodes, roots, i);
      if map'[i - base] != 0 {
        assert nodes[i].a in Children(nodes[i]) && nodes[i].b in Children(nodes[i]);
        assert nodes[i].c in Children(nodes[i]) && nodes[i].d in Children(nodes[i]);
        if nodes[i].a >= base { map'[nodes[i].a - base] := 1; }
        if nodes[i].b >= base { map'[nodes[i].b - base] := 1; }
        if nodes[i].c >= base { map'[nodes[i].c - base] := 1; }
        if nodes[i].d >= base { map'[nodes[i].d - base] := 1; }
      }
      forall h | base <= h < |nodes| ensures map'[h - base] == if MarkedAt(nodes, roots, i, h) then 1 else 0 {
        assert was[h - base] == if MarkedAt(nodes, roots, i + 1, h) then 1 else 0;
        MarkedStep(nodes, roots, i, h);
      }
    }
    forall h | base <= h < |nodes| ensures MarkedAt(nodes, roots, base, h) <==> Kept(nodes, roots, h) {
    }
  }

  lemma MarkedStep(nodes: seq<Node>, roots: set<nat>, i: nat, h: nat)
    requires Backward(nodes) && 0 < i < |nodes|
    ensures MarkedAt(nodes, roots, i, h) <==>
            MarkedAt(nodes, roots, i + 1, h) || (Kept(nodes, roots, i) && h in Children(nodes[i]))
  {
  }

  /** The relocation array when the handles below `i` have been relocated. */
  ghost predicate Relocates(map': array<nat>, base: nat, kept: set<nat>, i: nat) reads map' {
    && (forall j :: 0 <= j < map'.Length && base + j < i ==> map'[j] == Moved(kept, base, base + j))
    && (forall j :: 0 <= j < map'.Length && base + j >= i ==> map'[j] == if base + j in kept then 1 else 0)
  }

  method Relocate(map': array<nat>, base: nat, h: nat, ghost kept: set<nat>, ghost i: nat) returns (moved: nat)
    requires Relocates(map', base, kept, i) && base <= i <= base + map'.Length && h < i
    ensures moved == Moved(kept, base, h)
  {
    moved := h;
    if h >= base { moved := map'[h - base]; }
  }

  method RelocateNode(map': array<nat>, base: nat, n: Node, ghost kept: set<nat>, ghost i: nat) returns (m: Node)
    requires Relocates(map', base, kept, i) && base <= i <= base + map'.Length
    requires forall c :: c in Children(n) ==> c < i
    ensures m == MovedNode(kept, base, n)
  {
    assert n.a in Children(n) && n.b in Children(n) && n.c in Children(n) && n.d in Children(n);
    var a := Relocate(map', base, n.a, kept, i);
    var b := Relocate(map', base, n.b, kept, i);
    var c := Relocate(map', base, n.c, kept, i);
    var d := Relocate(map', base, n.d, kept, i);
    return Node(n.kind, n.payload, a, b, c, d);
  }

  /** Moves each kept node down over the dropped ones, in the same buffer. */
  method CompactInPlace(map': array<nat>, base: nat, nodes: seq<Node>, ghost kept: set<nat>) returns (buffer: seq<Node>)
    requires Backward(nodes) && 0 < base <= |nodes| == base + map'.Length
    requires Marks(map', base, kept) && Closed(nodes, base, kept)
    modifies map'
    ensures buffer == Compacted(nodes, kept, base, |nodes|)
    ensures Relocates(map', base, kept, |nodes|)
  {
    buffer := nodes;
    var next, i := base, base;
    while i < |nodes|
      invariant base <= i <= |nodes| == |buffer| && base <= next <= i
      invariant Relocates(map', base, kept, i) && next == base + Rank(kept, base, i)
      invariant buffer[..next] == Compacted(nodes, kept, base, i)
      invariant forall j :: i <= j < |nodes| ==> buffer[j] == nodes[j]
    {
      if map'[i - base] != 0 {
        var n := RelocateNode(map', base, buffer[i], kept, i);
        map'[i - base] := next;
        ghost var done := buffer[..next];
        buffer := buffer[next := n];
        next := next + 1;
        assert buffer[..next] == done + [n];
      }
      i := i + 1;
    }
    buffer := buffer[..next];
  }

  method RelocateHandles(map': array<nat>, base: nat, handles: seq<nat>, ghost kept: set<nat>) returns (moved: seq<nat>)
    requires Relocates(map', base, kept, base + map'.Length) && HandlesBelow(handles, base + map'.Length)
    ensures moved == MovedHandles(kept, base, handles)
  {
    moved := handles;
    var i := 0;
    while i < |handles|
      invariant i <= |handles| == |moved| && moved[i..] == handles[i..]
      invariant moved[..i] == MovedHandles(kept, base, handles)[..i]
    {
      var h := Relocate(map', base, moved[i], kept, base + map'.Length);
      assert moved[i] == moved[i..][0] == handles[i];
      moved := moved[i := h];
      i := i + 1;
    }
  }

  method RelocateDefinitions(map': array<nat>, base: nat, definitions: seq<Definition>, from: nat, ghost kept: set<nat>)
    returns (moved: seq<Definition>)
    requires Relocates(map', base, kept, base + map'.Length) && from <= |definitions|
    requires forall i :: 0 <= i < |definitions| ==> DefinitionValid(definitions[i], base + map'.Length)
    requires forall i :: 0 <= i < from ==> DefinitionValid(definitions[i], base)
    ensures |moved| == |definitions|
    ensures forall i :: 0 <= i < |moved| ==> moved[i] == MovedDefinition(kept, base, definitions[i])
  {
    moved := definitions;
    var i := from;
    while i < |moved|
      invariant from <= i <= |moved| == |definitions|
      invariant forall j :: i <= j < |moved| ==> moved[j] == definitions[j]
      invariant forall j :: 0 <= j < i ==> moved[j] == MovedDefinition(kept, base, definitions[j])
    {
      var value := Relocate(map', base, moved[i].value, kept, base + map'.Length);
      var typ := Relocate(map', base, moved[i].typ, kept, base + map'.Length);
      moved := moved[i := Definition(moved[i].symbol, value, typ)];
      i := i + 1;
    }
  }

  method RelocateSignatures(map': array<nat>, base: nat, signatures: seq<Signature>, ghost kept: set<nat>)
    returns (moved: seq<Signature>)
    requires Relocates(map', base, kept, base + map'.Length)
    requires forall i :: 0 <= i < |signatures| ==> SignatureValid(signatures[i], base + map'.Length)
    ensures |moved| == |signatures|
    ensures forall i :: 0 <= i < |moved| ==> moved[i] == MovedSignature(kept, base, signatures[i])
  {
    moved := signatures;
    var i := 0;
    while i < |moved|
      invariant i <= |moved| == |signatures|
      invariant forall j :: i <= j < |moved| ==> moved[j] == signatures[j]
      invariant forall j :: 0 <= j < i ==> moved[j] == MovedSignature(kept, base, signatures[j])
    {
      var terms := RelocateHandles(map', base, moved[i].terms, kept);
      var constructors := RelocateHandles(map', base, moved[i].constructors, kept);
      moved := moved[i := moved[i].(terms := terms, constructors := constructors)];
      i := i + 1;
    }
  }

  /** What a commit keeps: the values and types of the definitions from `from` up, every
      signature's syntax, the new references to definitions, and all they are built from. */
  ghost function CommitRoots(nodes: seq<Node>, base: nat, definitions: seq<Definition>, from: nat,
                             signatures: seq<Signature>, defref: nat): set<nat>
    requires from <= |definitions|
  {
    DefinitionRoots(definitions[from..]) + SignatureRoots(signatures) + References(nodes, defref, base, |nodes|)
  }

  /** The syntax, definitions and signatures that a commit makes of the ones before. */
  ghost predicate Committed(before: seq<Node>, base: nat, kept: set<nat>, ds: seq<Definition>, ss: seq<Signature>,
                            nodes: seq<Node>, definitions: seq<Definition>, signatures: seq<Signature>)
    requires base <= |before|
  {
    && nodes == Compacted(before, kept, base, |before|)
    && |definitions| == |ds| && (forall i :: 0 <= i < |ds| ==> definitions[i] == MovedDefinition(kept, base, ds[i]))
    && |signatures| == |ss| && (forall i :: 0 <= i < |ss| ==> signatures[i] == MovedSignature(kept, base, ss[i]))
  }

  /** Every invariant of the arena but the table's holds again after a commit. */
  lemma CommittedValid(before: seq<Node>, base: nat, ds: seq<Definition>, from: nat, ss: seq<Signature>,
                       savedSignatures: nat,
                       defref: nat, nodes: seq<Node>, definitions: seq<Definition>, signatures: seq<Signature>)
    requires Backward(before) && Shared(before) && 0 < base <= |before|
    requires DefinitionsValid(ds, |before|, base, from)
    requires SignaturesValid(ss, |before|, base, savedSignatures)
    requires Committed(before, base, KeptFrom(before, CommitRoots(before, base, ds, from, ss, defref), base), ds, ss,
                       nodes, definitions, signatures)
    ensures Backward(nodes) && Shared(nodes) && base <= |nodes| <= |before| && nodes[..base] == before[..base]
    ensures DefinitionsValid(definitions, |nodes|, 0, from) && SignaturesValid(signatures, |nodes|, 0, savedSignatures)
  {
    var roots := CommitRoots(before, base, ds, from, ss, defref);
    CompactedValid(before, roots, base);
    forall i | 0 <= i < |definitions| ensures DefinitionValid(definitions[i], |nodes|) {
      DefinitionsRelocate(before, roots, base, ds, from, i);
    }
    forall i | 0 <= i < |signatures| ensures SignatureValid(signatures[i], |nodes|) {
      SignaturesRelocate(before, roots, base, ss, i);
    }
  }

  // ---- What a commit keeps -------------------------------------------------------------------

  lemma {:induction false} DefinitionRooted(definitions: seq<Definition>, i: nat)
    requires i < |definitions|
    ensures definitions[i].value in DefinitionRoots(definitions) && definitions[i].typ in DefinitionRoots(definitions)
  {
    if i < |definitions| - 1 { DefinitionRooted(definitions[..|definitions| - 1], i); }
  }

  lemma {:induction false} SignatureRooted(signatures: seq<Signature>, i: nat)
    requires i < |signatures|
    ensures Elements(signatures[i].terms) + Elements(signatures[i].constructors) <= SignatureRoots(signatures)
  {
    if i < |signatures| - 1 { SignatureRooted(signatures[..|signatures| - 1], i); }
  }

  /** A root below the live count is relocated to a live handle with the same tree. */
  lemma RootRelocates(nodes: seq<Node>, roots: set<nat>, base: nat, h: nat)
    requires Backward(nodes) && 0 < base <= |nodes| && h < |nodes| && (h < base || h in roots)
    ensures var kept := KeptFrom(nodes, roots, base);
            && Backward(Compacted(nodes, kept, base, |nodes|))
            && Moved(kept, base, h) < |Compacted(nodes, kept, base, |nodes|)|
            && Unfold(Compacted(nodes, kept, base, |nodes|), Moved(kept, base, h)) == Unfold(nodes, h)
  {
    var kept := KeptFrom(nodes, roots, base);
    KeptIsClosed(nodes, roots, base);
    if h >= base { assert Kept(nodes, roots, h); }
    CompactedUnfold(nodes, kept, base, h);
  }

  lemma HandlesRelocate(nodes: seq<Node>, roots: set<nat>, base: nat, handles: seq<nat>)
    requires Backward(nodes) && 0 < base <= |nodes| && HandlesBelow(handles, |nodes|) && Elements(handles) <= roots
    ensures var kept := KeptFrom(nodes, roots, base);
            var after, moved := Compacted(nodes, kept, base, |nodes|), MovedHandles(kept, base, handles);
            && Backward(after) && HandlesBelow(moved, |after|)
            && forall i :: 0 <= i < |handles| ==> Unfold(after, moved[i]) == Unfold(nodes, handles[i])
  {
    var kept := KeptFrom(nodes, roots, base);
    var after := Compacted(nodes, kept, base, |nodes|);
    KeptIsClosed(nodes, roots, base);
    CompactedBackward(nodes, kept, base);
    forall i | 0 <= i < |handles|
      ensures Moved(kept, base, handles[i]) < |after|
      ensures Unfold(after, Moved(kept, base, handles[i])) == Unfold(nodes, handles[i])
    {
      assert handles[i] in Elements(handles);
      RootRelocates(nodes, roots, base, handles[i]);
    }
  }

  /** The compacted arena satisfies the arena's invariants. */
  lemma CompactedValid(nodes: seq<Node>, roots: set<nat>, base: nat)
    requires Backward(nodes) && Shared(nodes) && 0 < base <= |nodes|
    ensures var after := Compacted(nodes, KeptFrom(nodes, roots, base), base, |nodes|);
            Backward(after) && Shared(after) && base <= |after| <= |nodes| && after[..base] == nodes[..base]
  {
    var kept := KeptFrom(nodes, roots, base);
    KeptIsClosed(nodes, roots, base);
    CompactedBackward(nodes, kept, base);
    CompactedShared(nodes, kept, base);
    CompactedLength(nodes, kept, base, |nodes|);
    RankMonotone(kept, base, base, |nodes|);
  }

  /** Relocated definitions refer to live syntax, with the trees they had. */
  lemma DefinitionsRelocate(nodes: seq<Node>, roots: set<nat>, base: nat, definitions: seq<Definition>, from: nat,
                            i: nat)
    requires Backward(nodes) && DefinitionsValid(definitions, |nodes|, base, from) && 0 < base <= |nodes|
    requires from <= |definitions| && DefinitionRoots(definitions[from..]) <= roots && i < |definitions|
    ensures var kept, d := KeptFrom(nodes, roots, base), definitions[i];
            var after, m := Compacted(nodes, kept, base, |nodes|), MovedDefinition(kept, base, d);
            && Backward(after) && DefinitionValid(m, |after|) && DefinitionValid(d, |nodes|)
            && Unfold(after, m.value) == Unfold(nodes, d.value) && Unfold(after, m.typ) == Unfold(nodes, d.typ)
  {
    assert DefinitionValid(definitions[i], |nodes|);
    if i >= from {
      DefinitionRooted(definitions[from..], i - from);
      assert definitions[from..][i - from] == definitions[i];
    }
    RootRelocates(nodes, roots, base, definitions[i].value);
    RootRelocates(nodes, roots, base, definitions[i].typ);
  }

  lemma SignaturesRelocate(nodes: seq<Node>, roots: set<nat>, base: nat, signatures: seq<Signature>, i: nat)
    requires Backward(nodes) && 0 < base <= |nodes| && i < |signatures| && SignatureValid(signatures[i], |nodes|)
    requires SignatureRoots(signatures) <= roots
    ensures var kept, s := KeptFrom(nodes, roots, base), signatures[i];
            var after, m := Compacted(nodes, kept, base, |nodes|), MovedSignature(kept, base, s);
            && Backward(after) && SignatureValid(m, |after|)
            && (forall j :: 0 <= j < |s.terms| ==> Unfold(after, m.terms[j]) == Unfold(nodes, s.terms[j]))
            && (forall j :: 0 <= j < |s.constructors| ==>
                  Unfold(after, m.constructors[j]) == Unfold(nodes, s.constructors[j]))
  {
    SignatureRooted(signatures, i);
    HandlesRelocate(nodes, roots, base, signatures[i].terms);
    HandlesRelocate(nodes, roots, base, signatures[i].constructors);
  }

  function MovedDefinition(kept: set<nat>, base: nat, d: Definition): Definition {
    Definition(d.symbol, Moved(kept, base, d.value), Moved(kept, base, d.typ))
  }

  function MovedSignature(kept: set<nat>, base: nat, s: Signature): Signature {
    s.(terms := MovedHandles(kept, base, s.terms), constructors := MovedHandles(kept, base, s.constructors))
  }

  // ---- What survives a commit, told without its roots --------------------------------------------

  /** Two handles, of two arenas, with the same syntax. */
  ghost predicate SameTree(nodes: seq<Node>, h: nat, nodes': seq<Node>, h': nat) {
    && Backward(nodes) && Backward(nodes') && h < |nodes| && h' < |nodes'|
    && Unfold(nodes', h') == Unfold(nodes, h)
  }

  ghost predicate SameTrees(nodes: seq<Node>, hs: seq<nat>, nodes': seq<Node>, hs': seq<nat>) {
    |hs'| == |hs| && forall j :: 0 <= j < |hs| ==> SameTree(nodes, hs[j], nodes', hs'[j])
  }

  ghost predicate SameDefinition(nodes: seq<Node>, d: Definition, nodes': seq<Node>, d': Definition) {
    d'.symbol == d.symbol && SameTree(nodes, d.value, nodes', d'.value) && SameTree(nodes, d.typ, nodes', d'.typ)
  }

  ghost predicate SameSignature(nodes: seq<Node>, s: Signature, nodes': seq<Node>, s': Signature) {
    && SameTrees(nodes, s.terms, nodes', s'.terms) && SameTrees(nodes, s.constructors, nodes', s'.constructors)
    && s'.admitted == s.admitted
  }

  /** A handle that a commit has to keep, with all its syntax: a value or type of a new
      definition, a term or constructor type of a signature, or a new reference. */
  ghost predicate Needed(nodes: seq<Node>, base: nat, ds: seq<Definition>, from: nat, ss: seq<Signature>, defref: nat,
                         r: nat) {
    || (exists i :: from <= i < |ds| && (r == ds[i].value || r == ds[i].typ))
    || (exists i :: 0 <= i < |ss| && (r in ss[i].terms || r in ss[i].constructors))
    || (base <= r < |nodes| && nodes[r].kind == defref)
  }

  /** A handle in the syntax of one that a commit has to keep. */
  ghost predicate Wanted(nodes: seq<Node>, base: nat, ds: seq<Definition>, from: nat, ss: seq<Signature>, defref: nat,
                         h: nat) {
    exists r :: Needed(nodes, base, ds, from, ss, defref, r) && PartOf(nodes, r, h)
  }

  lemma {:induction false} DefinitionRootsAre(ds: seq<Definition>, r: nat)
    ensures r in DefinitionRoots(ds) <==> exists i :: 0 <= i < |ds| && (r == ds[i].value || r == ds[i].typ)
  {
    if ds != [] {
      var last := |ds| - 1;
      DefinitionRootsAre(ds[..last], r);
      if i :| 0 <= i < last && (r == ds[i].value || r == ds[i].typ) { assert ds[..last][i] == ds[i]; }
    }
  }

  lemma {:induction false} SignatureRootsAre(ss: seq<Signature>, r: nat)
    ensures r in SignatureRoots(ss) <==>
              exists i :: 0 <= i < |ss| && (r in ss[i].terms || r in ss[i].constructors)
  {
    if ss != [] {
      var last := |ss| - 1;
      SignatureRootsAre(ss[..last], r);
      if i :| 0 <= i < last && (r in ss[i].terms || r in ss[i].constructors) { assert ss[..last][i] == ss[i]; }
    }
  }

  lemma CommitRootsAre(nodes: seq<Node>, base: nat, ds: seq<Definition>, from: nat, ss: seq<Signature>, defref: nat,
                       r: nat)
    requires from <= |ds|
    ensures r in CommitRoots(nodes, base, ds, from, ss, defref) <==> Needed(nodes, base, ds, from, ss, defref, r)
  {
    var recent := ds[from..];
    DefinitionRootsAre(recent, r);
    SignatureRootsAre(ss, r);
    if i :| 0 <= i < |recent| && (r == recent[i].value || r == recent[i].typ) { assert ds[from + i] == recent[i]; }
    if i :| from <= i < |ds| && (r == ds[i].value || r == ds[i].typ) { assert recent[i - from] == ds[i]; }
  }

  /** Every definition and signature has the syntax it had. */
  lemma CommittedKeeps(before: seq<Node>, base: nat, ds: seq<Definition>, from: nat, ss: seq<Signature>,
                       savedSignatures: nat,
                       defref: nat, nodes: seq<Node>, definitions: seq<Definition>, signatures: seq<Signature>)
    requires Backward(before) && Shared(before) && 0 < base <= |before|
    requires DefinitionsValid(ds, |before|, base, from) && SignaturesValid(ss, |before|, base, savedSignatures)
    requires Committed(before, base, KeptFrom(before, CommitRoots(before, base, ds, from, ss, defref), base), ds, ss,
                       nodes, definitions, signatures)
    ensures forall i :: 0 <= i < |ds| ==> SameDefinition(before, ds[i], nodes, definitions[i])
    ensures forall i :: 0 <= i < |ss| ==> SameSignature(before, ss[i], nodes, signatures[i])
  {
    var roots := CommitRoots(before, base, ds, from, ss, defref);
    CompactedValid(before, roots, base);
    forall i | 0 <= i < |ds| ensures SameDefinition(before, ds[i], nodes, definitions[i]) {
      DefinitionsRelocate(before, roots, base, ds, from, i);
    }
    forall i | 0 <= i < |ss| ensures SameSignature(before, ss[i], nodes, signatures[i]) {
      SignaturesRelocate(before, roots, base, ss, i);
    }
  }

  /** A handle from the checkpoint up keeps a handle just when it stands in something that
      is needed, and then its syntax; the handles below stay. */
  lemma CommittedExactly(before: seq<Node>, base: nat, ds: seq<Definition>, from: nat, ss: seq<Signature>, defref: nat,
                         h: nat)
    requires Backward(before) && Shared(before) && 0 < base <= |before| && from <= |ds| && h < |before|
    ensures var kept := KeptFrom(before, CommitRoots(before, base, ds, from, ss, defref), base);
            var after := Compacted(before, kept, base, |before|);
            && (h < base ==> Moved(kept, base, h) == h)
            && (h < base || Moved(kept, base, h) != 0 ==> SameTree(before, h, after, Moved(kept, base, h)))
            && (h >= base ==>
                  (Moved(kept, base, h) != 0 <==> Wanted(before, base, ds, from, ss, defref, h)))
  {
    var roots := CommitRoots(before, base, ds, from, ss, defref);
    var kept := KeptFrom(before, roots, base);
    KeptIsClosed(before, roots, base);
    if h < base || h in kept { CompactedUnfold(before, kept, base, h); }
    if h >= base {
      KeptIsPart(before, roots, h);
      if r :| r in roots && PartOf(before, r, h) { CommitRootsAre(before, base, ds, from, ss, defref, r); }
      if r :| Needed(before, base, ds, from, ss, defref, r) && PartOf(before, r, h) {
        CommitRootsAre(before, base, ds, from, ss, defref, r);
      }
    }
  }

  class Kernel {
    /** The syntax table: how many children a kind has (5 for no syntax), which of them
        may be absent, and the kind of a reference to a definition. Any tables and any
        hash function do. */
    const arity: nat -> nat
    const optional: (nat, nat) -> bool
    /** Whether a kind takes a payload. */
    const payloads: (nat, nat) -> bool
    const defref: nat
    const hash: Node -> nat

    var nodes: seq<Node>
    var table: array<nat>
    var used: nat
    var definitions: seq<Definition>
    var signatures: seq<Signature>
    var failed: bool
    /** Reductions cached by handle. They may point forwards. */
    var cache: map<nat, nat>

    var checkpoint: nat
    var checkpointDefinitions: nat
    var checkpointSignatures: nat
    /** The arena as it was at the checkpoint. */
    ghost var snapshot: Snapshot
    /** The latest commit's relocation of the handles from its base up. */
    var relocation: array?<nat>
    var relocationBase: nat

    /** Identical syntax is one live handle, every live handle is found by probing from
        its hash, and the table is at most half full unless nothing was made since a
        commit. */
    ghost predicate TableValid() reads this, table {
      && used == Occupied(table[..])
      && AllIndexed(hash, nodes, table[..])
      && (2 * used <= table.Length || checkpoint == 0 || checkpoint == |nodes|)
    }

    ghost predicate Valid() reads this, table {
      && Backward(nodes) && Shared(nodes) && |nodes| <= MAX_HANDLES
      && TableValid()
      && checkpoint <= |nodes|
      && DefinitionsValid(definitions, |nodes|, checkpoint, checkpointDefinitions)
      && SignaturesValid(signatures, |nodes|, checkpoint, checkpointSignatures)
      && CacheValid(cache, |nodes|)
      && (checkpoint > 0 ==>
            Recalls(snapshot, nodes, checkpoint, definitions, checkpointDefinitions, signatures, checkpointSignatures))
    }

    constructor (arity: nat -> nat, optional: (nat, nat) -> bool, payloads: (nat, nat) -> bool, defref: nat,
                 hash: Node -> nat)
      ensures Valid() && |nodes| == 1 && definitions == [] && signatures == [] && !failed && checkpoint == 0
    {
      this.arity, this.optional, this.payloads, this.defref, this.hash := arity, optional, payloads, defref, hash;
      nodes := [Node(0, 0, 0, 0, 0, 0)];
      table := new nat[0];
      used, definitions, signatures, failed, cache := 0, [], [], false, map[];
      checkpoint, checkpointDefinitions, checkpointSignatures := 0, 0, 0;
      relocation, relocationBase := null, 0;
      snapshot := Snapshot([], [], []);
    }

    // ---- The hash graph ------------------------------------------------------------------

    /** Places a live handle at the first free slot from its hash. Tombstones are free,
        and so is a slot that already names the handle. */
    method Intern(h: nat) returns (ghost s: nat)
      requires 0 < h < |nodes| && table.Length > 0
      requires used == Occupied(table[..]) < table.Length
      modifies table, `used
      ensures s < table.Length && table[..] == old(table[..])[s := h]
      ensures old(table[s]) == 0 || old(table[s]) >= |nodes| || old(table[s]) == h
      ensures used == Occupied(table[..]) == old(used) + if old(table[s]) == 0 then 1 else 0
      ensures Indexed(hash, nodes, table[..], h)
    {
      var slot := hash(nodes[h]) % table.Length;
      ghost var home, size, t := slot, table.Length, table[..];
      ghost var z := SomeEmpty(t);
      ghost var last := SlotReachable(home, z, size);
      ghost var k := 0;
      while table[slot] != 0 && table[slot] < |nodes| && table[slot] != h
        invariant k <= last && slot == SlotAt(home, k, size) && Filled(t, home, k)
        invariant table[..] == t && used == old(used)
        decreases last - k
      {
        assert t[slot] != 0 && k != last;
        slot := if slot + 1 == table.Length then 0 else slot + 1;
        k := k + 1;
      }
      if table[slot] == 0 { used := used + 1; }
      OccupiedUpdate(t, slot, h);
      PlacedReachable(t, home, k, h);
      table[slot] := h;
      s := slot;
      assert table[..] == t[s := h];
    }

    /** Places a handle and keeps those below it indexed. */
    method InternNext(h: nat)
      requires 0 < h < |nodes| && table.Length > 0
      requires used == Occupied(table[..]) < table.Length
      requires forall g :: 0 < g < h ==> Indexed(hash, nodes, table[..], g)
      modifies table, `used
      ensures forall g :: 0 < g <= h ==> Indexed(hash, nodes, table[..], g)
      ensures used == Occupied(table[..]) <= old(used) + 1
    {
      ghost var t := table[..];
      ghost var s := Intern(h);
      forall g | 0 < g < h ensures Indexed(hash, nodes, table[..], g) {
        assert Indexed(hash, nodes, t, g);
        KeptReachable(t, s, h, hash(nodes[g]) % |t|, g);
      }
    }

    /** Rebuilds the table with at least four slots per handle. */
    method Rebuild()
      requires |nodes| > 0
      modifies this`table, this`used
      ensures fresh(table) && used == Occupied(table[..]) && AllIndexed(hash, nodes, table[..])
      ensures table.Length > 0 && 2 * (used + 1) <= table.Length
    {
      var capacity := INTERN_MINIMUM;
      while capacity < 4 * |nodes|
        invariant capacity >= INTERN_MINIMUM
        decreases 4 * |nodes| - capacity
      {
        capacity := capacity * 2;
      }
      table := new nat[capacity](_ => 0);
      used := 0;
      OccupiedZeros(table[..]);
      var i := 1;
      while i < |nodes|
        invariant 0 < i <= |nodes| && table.Length == capacity && fresh(table)
        invariant used == Occupied(table[..]) < i
        invariant forall g :: 0 < g < i ==> Indexed(hash, nodes, table[..], g)
      {
        InternNext(i);
        i := i + 1;
      }
    }

    /** Keeps the table at most half full with one more handle. */
    method InternReserve()
      requires Valid()
      modifies this`table, this`used
      ensures Valid() && table.Length > 0 && 2 * (used + 1) <= table.Length
      ensures table == old(table) || fresh(table)
    {
      if table.Length > 0 && (used + 1) * 2 <= table.Length { return; }
      Rebuild();
    }

    /** The live handle of a node, or 0. The probe ends at an empty slot. */
    method Lookup(n: Node) returns (h: nat)
      requires TableValid() && |nodes| > 0 && table.Length > 0 && used < table.Length
      ensures h != 0 ==> h < |nodes| && nodes[h] == n
      ensures h == 0 ==> forall g :: 0 < g < |nodes| ==> nodes[g] != n
    {
      var slot := hash(n) % table.Length;
      ghost var home, size, t := slot, table.Length, table[..];
      ghost var z := SomeEmpty(t);
      ghost var last := SlotReachable(home, z, size);
      ghost var k := 0;
      while table[slot] != 0
        invariant k <= last && slot == SlotAt(home, k, size) && Filled(t, home, k)
        invariant forall j :: 0 <= j < k && t[SlotAt(home, j, size)] < |nodes| ==> nodes[t[SlotAt(home, j, size)]] != n
        decreases last - k
      {
        assert k != last;
        if table[slot] < |nodes| && nodes[table[slot]] == n { return table[slot]; }
        slot := if slot + 1 == table.Length then 0 else slot + 1;
        k := k + 1;
      }
      forall g | 0 < g < |nodes| ensures nodes[g] != n {
        if nodes[g] == n {
          assert Indexed(hash, nodes, t, g);
          var j := ProbedAll(t, home, k, g);
        }
      }
      h := 0;
    }

    // ---- Making syntax -------------------------------------------------------------------

    method Check(n: Node) returns (ok: bool)
      ensures ok <==> Accepts(arity, optional, |nodes|, n)
    {
      if arity(n.kind) > 4 { return false; }
      for i := 0 to 4
        invariant forall j :: 0 <= j < i ==> ChildAccepted(arity, optional, |nodes|, n, j)
      {
        if !ChildAccepted(arity, optional, |nodes|, n, i) { return false; }
      }
      return true;
    }

    /** The node's handle: the existing one for identical syntax, and a new one
        otherwise. Nothing is made once an operation has failed. */
    method Make(n: Node) returns (h: nat)
      requires Valid()
      modifies this`nodes, this`table, this`used, this`failed, table
      ensures Valid() && (table == old(table) || fresh(table))
      ensures h != 0 ==> !failed && Interned(old(nodes), n, nodes, h)
      ensures h == 0 ==> failed && nodes == old(nodes)
      ensures h != 0 ==> !old(failed) && Accepts(arity, optional, |old(nodes)|, n) && payloads(n.kind, n.payload)
      ensures h == |old(nodes)| ==> Depth(old(nodes), n, |old(nodes)|) <= MAX_DEPTH && |old(nodes)| < MAX_HANDLES
      ensures h == 0 ==>
                || old(failed) || !Accepts(arity, optional, |old(nodes)|, n) || !payloads(n.kind, n.payload)
                || |old(nodes)| >= MAX_HANDLES || Depth(old(nodes), n, |old(nodes)|) > MAX_DEPTH
    {
      if failed { return 0; }
      var ok := Check(n);
      if !ok || !payloads(n.kind, n.payload) {
        failed := true;
        return 0;
      }
      InternReserve();
      h := Lookup(n);
      if h != 0 { return; }
      h := MakeNew(n);
    }

    /** A node that is not there yet, unless it is too deep or the handles are used up. */
    method MakeNew(n: Node) returns (h: nat)
      requires Valid() && !failed && table.Length > 0 && 2 * (used + 1) <= table.Length
      requires Accepts(arity, optional, |nodes|, n) && Unmade(nodes, n)
      modifies this`nodes, this`used, this`failed, table
      ensures Valid() && (h == 0 <==> failed)
      ensures failed <==> |old(nodes)| >= MAX_HANDLES || Depth(old(nodes), n, |old(nodes)|) > MAX_DEPTH
      ensures nodes == if failed then old(nodes) else old(nodes) + [n]
      ensures h == if failed then 0 else |old(nodes)|
    {
      if Depth(nodes, n, |nodes|) > MAX_DEPTH || |nodes| >= MAX_HANDLES {
        failed := true;
        return 0;
      }
      AcceptedChildren(arity, optional, |nodes|, n);
      h := Append(n);
    }

    method Append(n: Node) returns (h: nat)
      requires Valid() && table.Length > 0 && 2 * (used + 1) <= table.Length && |nodes| < MAX_HANDLES
      requires forall g :: 0 < g < |nodes| ==> nodes[g] != n
      requires forall c :: c in Children(n) ==> c < |nodes|
      modifies this`nodes, this`used, table
      ensures Valid() && nodes == old(nodes) + [n] && h == |old(nodes)|
    {
      h := |nodes|;
      nodes := nodes + [n];
      assert Backward(nodes) && Shared(nodes);
      forall g | 0 < g < h ensures Indexed(hash, nodes, table[..], g) {
        assert Indexed(hash, old(nodes), table[..], g);
      }
      InternNext(h);
    }

    /** Caches a finished reduction. */
    method Remember(h: nat, result: nat)
      requires Valid() && h < |nodes| && result < |nodes|
      modifies `cache
      ensures Valid() && cache == old(cache)[h := result]
    {
      cache := cache[h := result];
    }

    // ---- Definitions and signatures ----------------------------------------------------------

    method Define(symbol: nat, value: nat, typ: nat)
      requires Valid() && value < |nodes| && typ < |nodes|
      modifies `definitions
      ensures Valid() && definitions == old(definitions) + [Definition(symbol, value, typ)]
    {
      definitions := definitions + [Definition(symbol, value, typ)];
    }

    method SignatureBegin(terms: seq<nat>)
      requires Valid() && HandlesBelow(terms, |nodes|)
      modifies `signatures
      ensures Valid() && signatures == old(signatures) + [Signature(terms, [], false, 0, false)]
    {
      signatures := signatures + [Signature(terms, [], false, 0, false)];
    }

    /** Adds a constructor's type. An admitted signature never changes. */
    method SignatureConstructor(s: nat, typ: nat) returns (ok: bool)
      requires Valid() && s < |signatures| && typ < |nodes|
      modifies `signatures
      ensures Valid() && ok == !old(signatures[s].admitted)
      ensures signatures == if ok then
                old(signatures)[s := old(signatures)[s].(constructors := old(signatures)[s].constructors + [typ])]
              else old(signatures)
    {
      if signatures[s].admitted { return false; }
      ghost var was := signatures[s];
      signatures := signatures[s := signatures[s].(constructors := signatures[s].constructors + [typ])];
      if was.savedConstructors <= |was.constructors| {
        assert Restored(signatures[s]).constructors == Restored(was).constructors;
      }
      return true;
    }

    method SignatureClose(s: nat)
      requires Valid() && s < |signatures|
      modifies `signatures
      ensures Valid() && signatures == old(signatures)[s := old(signatures)[s].(admitted := true)]
    {
      signatures := signatures[s := signatures[s].(admitted := true)];
    }

    /** A signature that was opened or extended since the checkpoint and is still open. */
    predicate SignaturesOpen() reads this {
      exists i :: 0 <= i < |signatures| && !signatures[i].admitted
        && (i >= checkpointSignatures || |signatures[i].constructors| != signatures[i].savedConstructors)
    }

    // ---- Checkpoint and rollback ---------------------------------------------------------------

    method Checkpoint()
      requires Valid()
      modifies this
      ensures Valid() && checkpoint == |nodes| && nodes == old(nodes) && definitions == old(definitions)
      ensures checkpointDefinitions == |definitions| && checkpointSignatures == |signatures|
      ensures signatures == AllSaved(old(signatures))
      ensures snapshot == Snapshot(old(nodes), old(definitions), AllRecorded(old(signatures)))
      ensures relocation == null && table == old(table) && failed == old(failed) && cache == old(cache)
    {
      relocation, relocationBase := null, 0;
      checkpoint, checkpointDefinitions, checkpointSignatures := |nodes|, |definitions|, |signatures|;
      SavedRecalls(nodes, definitions, signatures);
      snapshot := Snapshot(nodes, definitions, AllRecorded(signatures));
      signatures := AllSaved(signatures);
    }

    /** Drops everything made since the checkpoint. Handles in the table become
        tombstones; the caches, which may point forwards, are cleared. */
    method Rollback()
      requires Valid()
      modifies this
      ensures Valid() && table == old(table)
      ensures old(checkpoint) == 0 ==> unchanged(this)
      ensures old(checkpoint) > 0 ==>
                && nodes == old(nodes[..checkpoint]) && definitions == old(definitions[..checkpointDefinitions])
                && signatures == AllRestored(old(signatures[..checkpointSignatures]))
                && checkpoint == 0 && !failed && cache == map[]
                && Snapshot(nodes, definitions, AllRecorded(signatures)) == old(snapshot)
    {
      if checkpoint == 0 { return; }
      cache := map[];
      nodes := nodes[..checkpoint];
      definitions := definitions[..checkpointDefinitions];
      signatures := AllRestored(signatures[..checkpointSignatures]);
      checkpoint := 0;
      failed := false;
      forall h | 0 < h < |nodes| ensures Indexed(hash, nodes, table[..], h) {
        assert Indexed(hash, old(nodes), table[..], h);
      }
    }

    // ---- Commit ----------------------------------------------------------------------------

    method MarkAll() returns (map': array<nat>)
      requires Valid() && checkpoint > 0
      ensures fresh(map') && checkpoint + map'.Length == |nodes|
      ensures Marks(map', checkpoint, KeptFrom(nodes,
                CommitRoots(nodes, checkpoint, definitions, checkpointDefinitions, signatures, defref), checkpoint))
    {
      map' := new nat[|nodes| - checkpoint](_ => 0);
      ghost var roots := DefinitionRoots(definitions[checkpointDefinitions..]);
      MarkDefinitions(map', checkpoint, definitions[checkpointDefinitions..]);
      MarkSignatures(map', checkpoint, signatures, roots);
      roots := roots + SignatureRoots(signatures);
      MarkReferences(map', checkpoint, nodes, defref, roots);
      roots := roots + References(nodes, defref, checkpoint, |nodes|);
      MarkReachable(map', checkpoint, nodes, roots);
    }

    /** The table never overflows while the survivors are indexed again, although they
        are added to what it holds: live handles occupy at most half of it. */
    lemma RoomForSurvivors()
      requires Valid() && 0 < checkpoint
      ensures used + (|nodes| - checkpoint) <= table.Length
      ensures |nodes| > checkpoint ==> table.Length > 0
    {
      if |nodes| > checkpoint {
        forall h | 0 < h < |nodes| ensures h in table[..] {
          assert Indexed(hash, nodes, table[..], h);
          var k: nat :| ReachesIn(table[..], hash(nodes[h]) % table.Length, h, k);
        }
        HandlesOccupy(table[..], |nodes|);
      }
    }

    /** Indexes the survivors from `base` up. The nodes below are as they were before. */
    method Reindex(base: nat, ghost before: seq<Node>)
      requires 0 < base <= |nodes| <= |before| && nodes[..base] == before[..base]
      requires used == Occupied(table[..]) && AllIndexed(hash, before, table[..])
      requires used + (|nodes| - base) <= table.Length && (|nodes| > base ==> table.Length > 0)
      modifies table, `used
      ensures used == Occupied(table[..]) && AllIndexed(hash, nodes, table[..])
    {
      forall g | 0 < g < base ensures Indexed(hash, nodes, table[..], g) {
        assert Indexed(hash, before, table[..], g);
        assert nodes[..base][g] == before[..base][g];
      }
      var i := base;
      while i < |nodes|
        invariant base <= i <= |nodes|
        invariant used == Occupied(table[..]) && used + (|nodes| - i) <= table.Length
        invariant forall g :: 0 < g < i ==> Indexed(hash, nodes, table[..], g)
      {
        InternNext(i);
        i := i + 1;
      }
    }

    /** Marks, moves and relocates; the survivors' handles are not indexed yet. */
    method Compact(ghost kept: set<nat>)
      requires Valid() && checkpoint > 0
      requires kept == KeptFrom(nodes,
                 CommitRoots(nodes, checkpoint, definitions, checkpointDefinitions, signatures, defref), checkpoint)
      modifies this`nodes, this`definitions, this`signatures, this`relocation, this`relocationBase
      ensures Committed(old(nodes), checkpoint, kept, old(definitions), old(signatures), nodes, definitions, signatures)
      ensures relocationBase == checkpoint && relocation != null && fresh(relocation)
      ensures checkpoint + relocation.Length == |old(nodes)|
      ensures Relocates(relocation, checkpoint, kept, |old(nodes)|)
    {
      var base := checkpoint;
      var map' := MarkAll();
      KeptIsClosed(nodes, CommitRoots(nodes, checkpoint, definitions, checkpointDefinitions, signatures, defref),
                   checkpoint);
      var compacted := CompactInPlace(map', base, nodes, kept);
      definitions := RelocateDefinitions(map', base, definitions, checkpointDefinitions, kept);
      signatures := RelocateSignatures(map', base, signatures, kept);
      nodes, relocation, relocationBase := compacted, map', base;
    }

    /** Keeps what the new definitions, signatures and references need, compacted, and
        drops the rest. The survivors are indexed again; the table has room for them. */
    method Commit() returns (ok: bool, ghost kept: set<nat>)
      requires Valid()
      modifies this, table
      ensures Valid() && table == old(table)
      ensures ok <==> old(checkpoint > 0 && !failed && !SignaturesOpen())
      ensures !ok ==> nodes == old(nodes) && definitions == old(definitions) && signatures == old(signatures)
      ensures ok ==>
                && kept == old(KeptFrom(nodes,
                     CommitRoots(nodes, checkpoint, definitions, checkpointDefinitions, signatures, defref),
                         checkpoint))
                && Committed(old(nodes), old(checkpoint), kept, old(definitions), old(signatures), nodes, definitions,
                             signatures)
                && checkpoint == 0 && cache == map[] && relocationBase == old(checkpoint)
                && relocation != null && old(checkpoint) + relocation.Length == |old(nodes)|
                && Relocates(relocation, old(checkpoint), kept, |old(nodes)|)
      ensures ok ==> forall h: nat :: h < |old(nodes)| ==>
                Relocated(h) == Moved(kept, old(checkpoint), h)
      ensures ok ==> |definitions| == |old(definitions)| && forall i :: 0 <= i < |definitions| ==>
                SameDefinition(old(nodes), old(definitions)[i], nodes, definitions[i])
      ensures ok ==> |signatures| == |old(signatures)| && forall i :: 0 <= i < |signatures| ==>
                SameSignature(old(nodes), old(signatures)[i], nodes, signatures[i])
      ensures ok ==> forall h: nat :: h < |old(nodes)| ==>
                Survival(old(nodes), old(checkpoint), old(definitions), old(checkpointDefinitions), old(signatures), h)
      ensures ok ==> forall h: nat :: old(checkpoint) <= h < |old(nodes)| && old(nodes)[h].kind == defref ==>
                Relocated(h) != 0
    {
      ghost var before, ds, ss := nodes, definitions, signatures;
      ghost var base, from, saved := checkpoint, checkpointDefinitions, checkpointSignatures;
      kept := {};
      if checkpoint == 0 || failed { return false, kept; }
      if SignaturesOpen() {
        failed := true;
        return false, kept;
      }
      kept := KeptFrom(nodes, CommitRoots(nodes, checkpoint, definitions, checkpointDefinitions, signatures, defref),
                       checkpoint);
      CommitSyntax(kept);
      CommittedKeeps(before, base, ds, from, ss, saved, defref, nodes, definitions, signatures);
      forall h: nat | h < |before|
        ensures Relocated(h) == Moved(kept, base, h) && Survival(before, base, ds, from, ss, h)
        ensures base <= h && before[h].kind == defref ==> Relocated(h) != 0
      {
        Told(before, base, ds, from, ss, kept, h);
      }
      ok := true;
    }

    /** What a commit has done to one handle. */
    lemma Told(before: seq<Node>, base: nat, ds: seq<Definition>, from: nat, ss: seq<Signature>, kept: set<nat>, h: nat)
      requires Backward(before) && Shared(before) && 0 < base <= |before| && from <= |ds| && h < |before|
      requires kept == KeptFrom(before, CommitRoots(before, base, ds, from, ss, defref), base)
      requires nodes == Compacted(before, kept, base, |before|)
      requires relocation != null && relocationBase == base && base + relocation.Length == |before|
      requires Relocates(relocation, base, kept, |before|)
      ensures Relocated(h) == Moved(kept, base, h) && Survival(before, base, ds, from, ss, h)
      ensures base <= h && before[h].kind == defref ==> Relocated(h) != 0
    {
      CommittedExactly(before, base, ds, from, ss, defref, h);
      assert Relocated(h) == Moved(kept, base, h);
      if base <= h && before[h].kind == defref {
        assert Needed(before, base, ds, from, ss, defref, h) && PartOf(before, h, h);
      }
    }

    /** A handle below the checkpoint is what it was. One from it up has a new handle just
        when the commit had to keep it, and then with the same syntax. */
    ghost predicate Survival(before: seq<Node>, base: nat, ds: seq<Definition>, from: nat, ss: seq<Signature>, h: nat)
      reads this, relocation
    {
      if h < base then Relocated(h) == h && SameTree(before, h, nodes, h)
      else
        && (Relocated(h) != 0 ==> SameTree(before, h, nodes, Relocated(h)))
        && (Relocated(h) != 0 <==> Wanted(before, base, ds, from, ss, defref, h))
    }

    method CommitSyntax(ghost kept: set<nat>)
      requires Valid() && checkpoint > 0
      requires kept == KeptFrom(nodes,
                 CommitRoots(nodes, checkpoint, definitions, checkpointDefinitions, signatures, defref), checkpoint)
      modifies this, table
      ensures Valid() && table == old(table)
      ensures Committed(old(nodes), old(checkpoint), kept, old(definitions), old(signatures), nodes, definitions,
                        signatures)
      ensures checkpoint == 0 && cache == map[] && relocationBase == old(checkpoint)
      ensures relocation != null && old(checkpoint) + relocation.Length == |old(nodes)|
      ensures Relocates(relocation, old(checkpoint), kept, |old(nodes)|)
    {
      ghost var before, ds, ss := nodes, definitions, signatures;
      RoomForSurvivors();
      Compact(kept);
      CommittedValid(before, checkpoint, ds, checkpointDefinitions, ss, checkpointSignatures, defref, nodes,
                     definitions, signatures);
      Reindex(checkpoint, before);
      cache := map[];
      checkpoint := 0;
    }

    /** The handle that a commit gave to an earlier one, and 0 for a dropped one. */
    function Relocated(term: nat): nat reads this, relocation {
      if relocation == null || term < relocationBase then term
      else if term - relocationBase < relocation.Length then relocation[term - relocationBase]
      else 0
    }
  }
}
