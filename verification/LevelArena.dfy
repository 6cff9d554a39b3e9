/** levels.c: normalization of levels that share subterms in the syntax arena, by a
    bounded worklist with a direct-mapped memo, and the decisions built on it. */
module LevelArena {
  import opened Levels

  const MEMO_SIZE := 256
  const MAX_DEPTH := 512
  const PAYLOAD_TIER := 65536

  /** The level syntax of one arena node. A constant's payload packs tier and value. */
  datatype Kind =
    | LConst(payload: nat)
    | LSucc(count: nat, child: nat)
    | LMax(left: nat, right: nat)
    | LVar(symbol: nat)
    | NotALevel

  datatype Node = Node(kind: Kind, depth: nat)

  /** Children precede their parents and are less deep; handle 0 is not a term. */
  predicate ArenaValid(nodes: seq<Node>) {
    |nodes| > 0 && forall h :: 0 < h < |nodes| ==> NodeValid(nodes, h)
  }

  predicate NodeValid(nodes: seq<Node>, h: nat)
    requires h < |nodes|
  {
    && nodes[h].depth <= MAX_DEPTH
    && match nodes[h].kind
       case LSucc(_, c) => 0 < c < h && nodes[c].depth < nodes[h].depth
       case LMax(l, r) => 0 < l < h && 0 < r < h && nodes[l].depth < nodes[h].depth && nodes[r].depth < nodes[h].depth
       case _ => true
  }

  /** The level at a handle. A successor counts at least one. */
  ghost function LevelAt(nodes: seq<Node>, h: nat): Option<Level>
    requires ArenaValid(nodes)
  {
    if h == 0 || h >= |nodes| then None else
    match nodes[h].kind
    case LConst(p) => Some(Const(p / PAYLOAD_TIER, p % PAYLOAD_TIER))
    case LVar(x) => Some(Var(x))
    case LSucc(n, c) =>
      assert NodeValid(nodes, h);
      var base := LevelAt(nodes, c);
      if n == 0 || base.None? then None else Some(Succ(n, base.value))
    case LMax(l, r) =>
      assert NodeValid(nodes, h);
      var a, b := LevelAt(nodes, l), LevelAt(nodes, r);
      if a.None? || b.None? then None else Some(Max(a.value, b.value))
    case NotALevel => None
  }

  /** The normal form at a handle, or nothing for malformed or unbounded syntax. */
  ghost function Meaning(nodes: seq<Node>, h: nat): Option<Nf>
    requires ArenaValid(nodes)
  {
    var l := LevelAt(nodes, h);
    if l.None? then None else Normalize(l.value)
  }

  lemma MeaningSucc(nodes: seq<Node>, h: nat)
    requires ArenaValid(nodes) && 0 < h < |nodes| && nodes[h].kind.LSucc?
    ensures NodeValid(nodes, h)
    ensures Meaning(nodes, h)
            == if nodes[h].kind.count == 0 then None else Plus(Meaning(nodes, nodes[h].kind.child), nodes[h].kind.count)
  {
    assert NodeValid(nodes, h);
  }

  lemma MeaningMax(nodes: seq<Node>, h: nat)
    requires ArenaValid(nodes) && 0 < h < |nodes| && nodes[h].kind.LMax?
    ensures NodeValid(nodes, h)
    ensures Meaning(nodes, h) == Joined(Meaning(nodes, nodes[h].kind.left), Meaning(nodes, nodes[h].kind.right))
  {
    assert NodeValid(nodes, h);
  }

  lemma PlusPlus(nf: Option<Nf>, m: nat, n: nat)
    ensures Plus(Plus(nf, m), n) == Plus(nf, m + n)
  {
    if nf.Some? && m > 0 && n > 0 && nf.value.constant + m <= LEVEL_MAX {
      assert Raised(Raised(nf.value.terms, m), n) == Raised(nf.value.terms, m + n);
    }
  }

  lemma PlusTooMuch(nf: Option<Nf>, n: nat)
    requires n > LEVEL_MAX
    ensures Plus(nf, n) == None
  {
  }

  /** One step of the merge loop moves the head of the remaining merge across. */
  lemma MergeStep(merged: seq<Term>, terms: seq<Term>, others: seq<Term>, i: nat, j: nat)
    requires i <= |terms| && j <= |others| && (i < |terms| || j < |others|)
    ensures merged + Merge(terms[i..], others[j..]) ==
            if j == |others| || (i < |terms| && terms[i].key < others[j].key) then
              merged + [terms[i]] + Merge(terms[i + 1..], others[j..])
            else if i == |terms| || others[j].key < terms[i].key then
              merged + [others[j]] + Merge(terms[i..], others[j + 1..])
            else
              merged + [Term(terms[i].key, Larger(terms[i].offset, others[j].offset))]
              + Merge(terms[i + 1..], others[j + 1..])
  {
    var a, b := terms[i..], others[j..];
    assert i < |terms| ==> a[0] == terms[i] && a[1..] == terms[i + 1..] && a == [a[0]] + a[1..];
    assert j < |others| ==> b[0] == others[j] && b[1..] == others[j + 1..] && b == [b[0]] + b[1..];
    assert j == |others| ==> b == [];
    assert i == |terms| ==> a == [];
  }

  // ---- Normal forms in place ---------------------------------------------------------

  class NormalForm {
    var tier: nat
    var constant: nat
    var terms: seq<Term>

    ghost function View(): Nf reads this { Nf(tier, constant, terms) }

    constructor (nf: Nf)
      ensures View() == nf
    {
      tier, constant, terms := nf.tier, nf.constant, nf.terms;
    }

    method Set(nf: Nf)
      modifies this
      ensures View() == nf
    {
      tier, constant, terms := nf.tier, nf.constant, nf.terms;
    }

    /** Successors raise the constant and every offset, within the tier. The bound is
        checked on the constant alone. */
    method Add(successors: nat) returns (ok: bool)
      modifies this
      ensures match old(AddNf(View(), successors))
              case None => !ok && unchanged(this)
              case Some(nf) => ok && View() == nf
    {
      if successors == 0 { return true; }
      if constant + successors > LEVEL_MAX { return false; }
      constant := constant + successors;
      ghost var was := terms;
      var i := 0;
      while i < |terms|
        invariant i <= |terms| == |was|
        invariant tier == old(tier) && constant == old(constant) + successors
        invariant forall j :: 0 <= j < i ==> terms[j] == Term(was[j].key, was[j].offset + successors)
        invariant forall j :: i <= j < |was| ==> terms[j] == was[j]
      {
        terms := terms[i := Term(terms[i].key, terms[i].offset + successors)];
        i := i + 1;
      }
      assert terms == Raised(was, successors);
      return true;
    }

    method Join(b: NormalForm)
      requires b != this
      modifies this
      ensures View() == JoinNf(old(View()), b.View())
    {
      if tier > 0 || b.tier > 0 {
        if tier == 0 || (b.tier > 0 && (b.tier > tier || (b.tier == tier && b.constant > constant))) {
          tier, constant := b.tier, b.constant;
        }
        terms := [];
        return;
      }
      if b.terms != [] { terms := MergeTerms(terms, b.terms); }
      if b.constant > constant { constant := b.constant; }
    }
  }

  method MergeTerms(terms: seq<Term>, others: seq<Term>) returns (merged: seq<Term>)
    ensures merged == Merge(terms, others)
  {
    merged := [];
    var i, j := 0, 0;
    ghost var whole := Merge(terms, others);
    while i < |terms| || j < |others|
      invariant i <= |terms| && j <= |others|
      invariant merged + Merge(terms[i..], others[j..]) == whole
      decreases |terms| - i + |others| - j
    {
      MergeStep(merged, terms, others, i, j);
      if j == |others| || (i < |terms| && terms[i].key < others[j].key) {
        merged, i := merged + [terms[i]], i + 1;
      } else if i == |terms| || others[j].key < terms[i].key {
        merged, j := merged + [others[j]], j + 1;
      } else {
        var term := terms[i];
        if others[j].offset > term.offset { term := Term(term.key, others[j].offset); }
        merged, i, j := merged + [term], i + 1, j + 1;
      }
    }
  }

  /** The order of normal forms, by one pass over both sorted lists. */
  method TestLeq(a: Nf, b: Nf) returns (result: bool)
    requires WellFormed(a) && WellFormed(b)
    ensures result <==> LeqNf(a, b)
  {
    if a.tier == 0 && b.tier == 0 {
      if a.constant > b.constant { return false; }
      var j := 0;
      for i := 0 to |a.terms|
        invariant j <= |b.terms|
        invariant forall k :: 0 <= k < i ==> HasAtLeast(b.terms, a.terms[k])
        invariant i < |a.terms| ==> forall k :: 0 <= k < j ==> b.terms[k].key < a.terms[i].key
      {
        while j < |b.terms| && b.terms[j].key < a.terms[i].key
          invariant j <= |b.terms|
          invariant forall k :: 0 <= k < j ==> b.terms[k].key < a.terms[i].key
        {
          j := j + 1;
        }
        if j == |b.terms| || b.terms[j].key != a.terms[i].key || b.terms[j].offset < a.terms[i].offset {
          assert !HasAtLeast(b.terms, a.terms[i]) by {
            assert forall k :: j < k < |b.terms| ==> b.terms[j].key < b.terms[k].key;
          }
          return false;
        }
        assert HasAtLeast(b.terms, a.terms[i]);
      }
      return true;
    }
    if a.tier == 0 { return true; }
    if b.tier == 0 { return false; }
    return a.tier < b.tier || (a.tier == b.tier && a.constant <= b.constant);
  }

  method TestEqual(a: Nf, b: Nf) returns (result: bool)
    ensures result <==> a == b
  {
    if a.tier != b.tier || a.constant != b.constant || |a.terms| != |b.terms| { return false; }
    for i := 0 to |a.terms|
      invariant a.terms[..i] == b.terms[..i]
    {
      if a.terms[i].key != b.terms[i].key || a.terms[i].offset != b.terms[i].offset {
        assert a.terms[i] != b.terms[i];
        return false;
      }
    }
    return true;
  }

  // ---- The worklist -------------------------------------------------------------------

  /** Rejected: the syntax is not a level, or exceeds a bound. Exhausted: the step
      budget ran out. */
  datatype Failure = NoFailure | Rejected | Exhausted

  /** One slot of the memo; the term 0 marks an empty slot. */
  datatype Slot = Slot(term: nat, nf: Nf)

  /** A pending maximum, with the successors around it, its first operand once known,
      and the number of operands visited. */
  datatype Frame = Frame(term: nat, left: nat, right: nat, successors: nat, first: Nf, next: nat, cache: bool)

  const EMPTY := Nf(0, 0, [])

  ghost predicate MemoValid(nodes: seq<Node>, memo: array<Slot>)
    requires ArenaValid(nodes)
    reads memo
  {
    && memo.Length == MEMO_SIZE
    && forall i :: 0 <= i < MEMO_SIZE && memo[i].term != 0 ==> Meaning(nodes, memo[i].term) == Some(memo[i].nf)
  }

  ghost predicate FrameValid(nodes: seq<Node>, f: Frame)
    requires ArenaValid(nodes)
  {
    && 0 < f.term < |nodes| && 0 < f.left < |nodes| && 0 < f.right < |nodes| && f.next <= 2
    && nodes[f.left].depth < nodes[f.term].depth && nodes[f.right].depth < nodes[f.term].depth
    && Meaning(nodes, f.term) == Plus(Joined(Meaning(nodes, f.left), Meaning(nodes, f.right)), f.successors)
    && (f.next == 2 ==> Meaning(nodes, f.left) == Some(f.first))
  }

  /** Each frame but the last waits for the operand that the next frame computes. */
  ghost predicate Waiting(f: Frame, child: Frame) {
    (f.next == 1 && child.term == f.left) || (f.next == 2 && child.term == f.right)
  }

  ghost predicate StackValid(nodes: seq<Node>, frames: seq<Frame>, root: nat)
    requires ArenaValid(nodes)
  {
    && (forall i :: 0 <= i < |frames| ==> FrameValid(nodes, frames[i]))
    && (forall i :: 0 <= i < |frames| - 1 ==> Waiting(frames[i], frames[i + 1]))
    && (frames != [] ==> frames[0].term == root)
    && (forall i :: 0 <= i < |frames| && Meaning(nodes, frames[i].term) == None ==> Meaning(nodes, root) == None)
    && (forall i :: 0 <= i < |frames| ==> nodes[frames[i].term].depth + i <= MAX_DEPTH)
  }

  /** The last frame's latest operand has its normal form in `result`. */
  ghost predicate Answered(nodes: seq<Node>, f: Frame, result: Nf)
    requires ArenaValid(nodes)
  {
    && (f.next == 1 ==> Meaning(nodes, f.left) == Some(result))
    && (f.next == 2 ==> Meaning(nodes, f.right) == Some(result))
  }

  lemma Resumed(nodes: seq<Node>, frames: seq<Frame>, f: Frame, root: nat)
    requires ArenaValid(nodes) && frames != [] && StackValid(nodes, frames, root)
    requires f.term == frames[|frames| - 1].term && FrameValid(nodes, f)
    ensures StackValid(nodes, frames[|frames| - 1 := f], root)
  {
  }

  lemma Pushed(nodes: seq<Node>, frames: seq<Frame>, child: Frame, root: nat)
    requires ArenaValid(nodes) && frames != [] && StackValid(nodes, frames, root)
    requires Waiting(frames[|frames| - 1], child) && FrameValid(nodes, child)
    ensures StackValid(nodes, frames + [child], root)
  {
    assert FrameValid(nodes, frames[|frames| - 1]);
  }

  class LevelKernel {
    const nodes: seq<Node>
    var budget: nat
    var failure: Failure

    constructor (nodes: seq<Node>, budget: nat)
      ensures this.nodes == nodes && this.budget == budget && failure == NoFailure
    {
      this.nodes, this.budget, failure := nodes, budget, NoFailure;
    }

    method Tick() returns (ok: bool)
      modifies this
      ensures old(failure) != NoFailure ==> !ok && failure == old(failure) && budget == old(budget)
      ensures old(failure) == NoFailure && old(budget) == 0 ==> !ok && failure == Exhausted && budget == 0
      ensures old(failure) == NoFailure && old(budget) > 0 ==> ok && failure == NoFailure && budget == old(budget) - 1
    {
      if failure != NoFailure { return false; }
      if budget == 0 {
        failure := Exhausted;
        return false;
      }
      budget := budget - 1;
      return true;
    }

    /** Remembers a finished normal form; a collision discards the older one. */
    method Completed(f: Frame, nf: Nf, memo: array<Slot>)
      requires ArenaValid(nodes) && MemoValid(nodes, memo)
      requires failure == NoFailure ==> Meaning(nodes, f.term) == Some(nf)
      modifies memo
      ensures MemoValid(nodes, memo)
    {
      if failure == NoFailure && f.cache { memo[f.term % MEMO_SIZE] := Slot(f.term, nf); }
    }

    /** Walks a chain of successors down to another node. */
    method Chain(level: nat) returns (base: nat, successors: nat)
      requires ArenaValid(nodes) && failure == NoFailure
      modifies this
      ensures failure == NoFailure ==>
                && 0 < base < |nodes| && !nodes[base].kind.LSucc? && base <= level < |nodes|
                && nodes[base].depth <= nodes[level].depth
                && Meaning(nodes, level) == Plus(Meaning(nodes, base), successors)
                && budget < old(budget)
      ensures failure == Rejected ==> Meaning(nodes, level) == None
      ensures failure == Exhausted ==> budget == 0
      ensures budget <= old(budget)
    {
      base, successors := level, 0;
      while true
        invariant failure == NoFailure && budget <= old(budget)
        invariant base <= level
        invariant (base < level ==> 0 < base && level < |nodes| && nodes[base].depth <= nodes[level].depth)
        invariant Meaning(nodes, level) == Plus(Meaning(nodes, base), successors)
        decreases base
      {
        if base == 0 || base >= |nodes| {
          failure := Rejected;
          return;
        }
        var ok := Tick();
        if !ok { return; }
        if !nodes[base].kind.LSucc? { return; }
        MeaningSucc(nodes, base);
        if nodes[base].kind.count == 0 {
          failure := Rejected;
          return;
        }
        PlusPlus(Meaning(nodes, nodes[base].kind.child), nodes[base].kind.count, successors);
        successors := successors + nodes[base].kind.count;
        if successors > LEVEL_MAX {
          PlusTooMuch(Meaning(nodes, nodes[base].kind.child), successors);
          failure := Rejected;
          return;
        }
        base := nodes[base].kind.child;
      }
    }

    /** An immediate answer in `out`, or a failure, unless a maximum's operands remain. */
    method Ready(level: nat, out: NormalForm, memo: array<Slot>) returns (remain: bool, f: Frame)
      requires ArenaValid(nodes) && MemoValid(nodes, memo) && failure == NoFailure
      modifies this, out
      ensures MemoValid(nodes, memo) && f.term == level && budget <= old(budget)
      ensures remain ==> failure == NoFailure && FrameValid(nodes, f) && f.next == 0
      ensures !remain && failure == NoFailure ==> Meaning(nodes, level) == Some(out.View())
      ensures failure == NoFailure ==> budget < old(budget)
      ensures failure == Rejected ==> Meaning(nodes, level) == None
      ensures failure == Exhausted ==> budget == 0
    {
      var cache := level > 0 && level < |nodes| && nodes[level].depth >= 8;
      f := Frame(level, 0, 0, 0, EMPTY, 0, cache);
      if cache && memo[level % MEMO_SIZE].term == level {
        f := f.(cache := false);
        var ok := Tick();
        if ok { out.Set(memo[level % MEMO_SIZE].nf); }
        return false, f;
      }
      var base, successors := Chain(level);
      if failure != NoFailure { return false, f; }
      match nodes[base].kind {
        case LConst(payload) =>
          if payload / PAYLOAD_TIER > TIER_MAX {
            failure := Rejected;
            return false, f;
          }
          out.Set(Nf(payload / PAYLOAD_TIER, payload % PAYLOAD_TIER, []));
        case LVar(x) =>
          out.Set(Nf(0, 0, [Term(x, 0)]));
        case LMax(left, right) =>
          MeaningMax(nodes, base);
          return true, f.(left := left, right := right, successors := successors);
        case _ =>
          failure := Rejected;
          return false, f;
      }
      var ok := out.Add(successors);
      if !ok { failure := Rejected; }
      return false, f;
    }

    method Traverse(root: Frame, out: NormalForm, memo: array<Slot>)
      requires ArenaValid(nodes) && MemoValid(nodes, memo) && failure == NoFailure
      requires FrameValid(nodes, root) && root.next == 0 && nodes[root.term].depth <= MAX_DEPTH
      modifies this, out, memo
      ensures MemoValid(nodes, memo) && budget <= old(budget)
      ensures failure == NoFailure ==> Meaning(nodes, root.term) == Some(out.View())
      ensures failure == Rejected ==> Meaning(nodes, root.term) == None
      ensures failure == Exhausted ==> budget == 0
    {
      var frames := [root];
      while frames != [] && failure == NoFailure
        invariant MemoValid(nodes, memo) && budget <= old(budget)
        invariant StackValid(nodes, frames, root.term)
        invariant failure == NoFailure && frames != [] ==> Answered(nodes, frames[|frames| - 1], out.View())
        invariant failure == NoFailure && frames == [] ==> Meaning(nodes, root.term) == Some(out.View())
        invariant failure == Rejected ==> Meaning(nodes, root.term) == None
        invariant failure == Exhausted ==> budget == 0
        decreases budget, |frames|, failure == NoFailure
      {
        if frames[|frames| - 1].next == 2 {
          frames := Finish(frames, root.term, out, memo);
        } else {
          frames := Visit(frames, root.term, out, memo);
        }
      }
    }

    /** Both operands are known: join them, add the successors, and pop. */
    method Finish(frames: seq<Frame>, ghost root: nat, out: NormalForm, memo: array<Slot>) returns (rest: seq<Frame>)
      requires ArenaValid(nodes) && MemoValid(nodes, memo) && failure == NoFailure
      requires frames != [] && StackValid(nodes, frames, root) && frames[|frames| - 1].next == 2
      requires Answered(nodes, frames[|frames| - 1], out.View())
      modifies this`failure, out, memo
      ensures MemoValid(nodes, memo) && StackValid(nodes, rest, root) && failure != Exhausted
      ensures failure == NoFailure ==> rest == frames[..|frames| - 1]
      ensures failure == NoFailure && rest != [] ==> Answered(nodes, rest[|rest| - 1], out.View())
      ensures failure == NoFailure && rest == [] ==> Meaning(nodes, root) == Some(out.View())
      ensures failure == Rejected ==> rest == frames && Meaning(nodes, root) == None
    {
      var last := |frames| - 1;
      var f := frames[last];
      var sum := new NormalForm(f.first);
      sum.Join(out);
      var ok := sum.Add(f.successors);
      if !ok {
        failure := Rejected;
        return frames;
      }
      out.Set(Nf(sum.tier, sum.constant, sum.terms));
      Completed(f, Nf(sum.tier, sum.constant, sum.terms), memo);
      rest := frames[..last];
      assert rest != [] ==> Waiting(rest[last - 1], frames[last]);
    }

    /** Visits the last frame's next operand: its answer, or a new frame for it. */
    method Visit(frames: seq<Frame>, ghost root: nat, out: NormalForm, memo: array<Slot>) returns (more: seq<Frame>)
      requires ArenaValid(nodes) && MemoValid(nodes, memo) && failure == NoFailure
      requires frames != [] && StackValid(nodes, frames, root) && frames[|frames| - 1].next < 2
      requires Answered(nodes, frames[|frames| - 1], out.View())
      modifies this, out, memo
      ensures MemoValid(nodes, memo) && StackValid(nodes, more, root) && more != [] && budget <= old(budget)
      ensures failure == NoFailure ==> Answered(nodes, more[|more| - 1], out.View()) && budget < old(budget)
      ensures failure == Rejected ==> Meaning(nodes, root) == None
      ensures failure == Exhausted ==> budget == 0
      ensures failure != NoFailure ==> |more| == |frames|
    {
      var last := |frames| - 1;
      var f := frames[last];
      if f.next == 1 { f := f.(first := Nf(out.tier, out.constant, out.terms)); }
      var operand := if f.next == 0 then f.left else f.right;
      f := f.(next := f.next + 1);
      more := frames[last := f];
      Resumed(nodes, frames, f, root);
      var remain, child := Ready(operand, out, memo);
      if !remain {
        var nf := Nf(out.tier, out.constant, out.terms);
        Completed(child, nf, memo);
        return;
      }
      Pushed(nodes, more, child, root);
      more := more + [child];
    }

    /** The normal form of a level, for every shared graph, or the reason for none. */
    method LevelNormal(level: nat) returns (ok: bool, nf: Nf)
      requires ArenaValid(nodes) && failure == NoFailure
      modifies this
      ensures ok <==> failure == NoFailure
      ensures ok ==> Meaning(nodes, level) == Some(nf)
      ensures failure == Rejected ==> Meaning(nodes, level) == None
      ensures failure == Exhausted ==> budget == 0
    {
      var memo := new Slot[MEMO_SIZE](_ => Slot(0, EMPTY));
      var out := new NormalForm(EMPTY);
      var remain, root := Ready(level, out, memo);
      if remain {
        assert NodeValid(nodes, level);
        Traverse(root, out, memo);
      }
      return failure == NoFailure, Nf(out.tier, out.constant, out.terms);
    }

    /** A closed tier-0 constant within the bound needs no normal form. */
    function SmallConstant(level: nat): Option<nat> {
      if 0 < level < |nodes| && nodes[level].kind.LConst? && nodes[level].kind.payload <= LEVEL_MAX
      then Some(nodes[level].kind.payload) else None
    }

    /** Equality is decided exactly: at every assignment of naturals to variables. */
    method LevelEqual(a: nat, b: nat) returns (equal: bool)
      requires ArenaValid(nodes) && failure == NoFailure
      modifies this
      ensures failure == NoFailure ==> LevelAt(nodes, a).Some? && LevelAt(nodes, b).Some?
      ensures failure == NoFailure ==> (equal <==> AlwaysEqual(LevelAt(nodes, a).value, LevelAt(nodes, b).value))
      ensures failure == Rejected ==> Meaning(nodes, a) == None || Meaning(nodes, b) == None
      ensures failure == Exhausted ==> budget == 0
      ensures failure != NoFailure ==> !equal
    {
      if 0 < a < |nodes| && a == b && nodes[a].kind.LConst? { return true; }
      var x, y := SmallConstant(a), SmallConstant(b);
      if x.Some? && y.Some? {
        assert Value(LevelAt(nodes, a).value, Zeros()) == Ordinal(0, x.value);
        assert Value(LevelAt(nodes, b).value, Zeros()) == Ordinal(0, y.value);
        return x.value == y.value;
      }
      var ok, left, right;
      ok, left := LevelNormal(a);
      if !ok { return false; }
      ok, right := LevelNormal(b);
      if !ok { return false; }
      MeaningsDecided(nodes, a, b);
      equal := TestEqual(left, right);
    }

    /** Order is decided exactly. */
    method LevelLeq(a: nat, b: nat) returns (below: bool)
      requires ArenaValid(nodes) && failure == NoFailure
      modifies this
      ensures failure == NoFailure ==> LevelAt(nodes, a).Some? && LevelAt(nodes, b).Some?
      ensures failure == NoFailure ==> (below <==> AlwaysLeq(LevelAt(nodes, a).value, LevelAt(nodes, b).value))
      ensures failure == Rejected ==> Meaning(nodes, a) == None || Meaning(nodes, b) == None
      ensures failure == Exhausted ==> budget == 0
      ensures failure != NoFailure ==> !below
    {
      var x, y := SmallConstant(a), SmallConstant(b);
      if x.Some? && y.Some? {
        assert Value(LevelAt(nodes, a).value, Zeros()) == Ordinal(0, x.value);
        assert Value(LevelAt(nodes, b).value, Zeros()) == Ordinal(0, y.value);
        return x.value <= y.value;
      }
      var ok, left, right;
      ok, left := LevelNormal(a);
      if !ok { return false; }
      ok, right := LevelNormal(b);
      if !ok { return false; }
      MeaningsDecided(nodes, a, b);
      below := TestLeq(left, right);
    }

    /** The supremum of a level as one variable ranges over the naturals. */
    method LevelLimit(x: nat, level: nat) returns (ok: bool, limit: Level)
      requires ArenaValid(nodes) && failure == NoFailure
      modifies this
      ensures ok <==> failure == NoFailure
      ensures ok ==> LevelAt(nodes, level).Some?
      ensures ok ==> forall env: Assignment :: IsSupremum(Value(limit, env), LevelAt(nodes, level).value, x, env)
      ensures failure == Rejected ==> Meaning(nodes, level) == None
    {
      var nf;
      ok, nf := LevelNormal(level);
      if !ok { return false, Const(0, 0); }
      NormalizeSound(LevelAt(nodes, level).value, Zeros());
      forall env: Assignment ensures IsSupremum(Value(LimitNf(x, nf), env), LevelAt(nodes, level).value, x, env) {
        LimitIsSupremum(LevelAt(nodes, level).value, x, env);
      }
      var occurs := false;
      for i := 0 to |nf.terms|
        invariant occurs <==> exists j :: 0 <= j < i && nf.terms[j].key == x
      {
        occurs := occurs || nf.terms[i].key == x;
      }
      assert occurs <==> Occurs(x, nf.terms);
      limit := Const(1, 0);
      if !occurs { limit := Build(nf); }
      assert limit == LimitNf(x, nf);
    }
  }

  lemma MeaningsDecided(nodes: seq<Node>, a: nat, b: nat)
    requires ArenaValid(nodes) && Meaning(nodes, a).Some? && Meaning(nodes, b).Some?
    ensures WellFormed(Meaning(nodes, a).value) && WellFormed(Meaning(nodes, b).value)
    ensures Meaning(nodes, a) == Meaning(nodes, b) <==> AlwaysEqual(LevelAt(nodes, a).value, LevelAt(nodes, b).value)
    ensures LeqNf(Meaning(nodes, a).value, Meaning(nodes, b).value)
            <==> AlwaysLeq(LevelAt(nodes, a).value, LevelAt(nodes, b).value)
  {
    NormalizeSound(LevelAt(nodes, a).value, Zeros());
    NormalizeSound(LevelAt(nodes, b).value, Zeros());
    LevelsDecided(LevelAt(nodes, a).value, LevelAt(nodes, b).value);
  }

  /** The canonical syntax of a normal form, built from its last variable. */
  method Build(nf: Nf) returns (level: Level)
    requires WellFormed(nf)
    ensures level == Built(nf) && Normalize(level) == Some(nf)
  {
    if nf.tier > 0 { return Const(nf.tier, nf.constant); }
    var top := 0;
    for i := 0 to |nf.terms|
      invariant top == TopOffset(nf.terms[..i])
    {
      assert nf.terms[..i + 1][..i] == nf.terms[..i];
      if nf.terms[i].offset > top { top := nf.terms[i].offset; }
    }
    assert nf.terms[..|nf.terms|] == nf.terms;
    var last := if nf.terms == [] || nf.constant > top then Some(Const(0, nf.constant)) else None;
    var all := Nest(nf.terms, last);
    NestedNormal(nf.terms, last, nf.constant);
    level := all.value;
    BuildThenNormalize(nf);
  }

  method Nest(terms: seq<Term>, last: Option<Level>) returns (result: Option<Level>)
    ensures result == Nested(terms, last)
  {
    result := last;
    var i := |terms|;
    while i > 0
      invariant 0 <= i <= |terms| && result == Nested(terms[i..], last)
    {
      i := i - 1;
      assert terms[i..][1..] == terms[i + 1..];
      var part := if terms[i].offset == 0 then Var(terms[i].key) else Succ(terms[i].offset, Var(terms[i].key));
      result := Some(if result.None? then part else Max(part, result.value));
    }
    assert terms[0..] == terms;
  }
}
