/** checkpoint.c: what a mark-compact commit does to the syntax arena, on values. */
module Compaction {
  import opened Interning

  /** Syntax: a kind, a payload, and four children, where 0 is an absent child. */
  datatype Node = Node(kind: nat, payload: nat, a: nat, b: nat, c: nat, d: nat)

  function Children(n: Node): set<nat> { {n.a, n.b, n.c, n.d} }

  /** Children precede their parents; handle 0 is no node. */
  ghost predicate Backward(nodes: seq<Node>) {
    |nodes| > 0 && forall h, c :: 0 < h < |nodes| && c in Children(nodes[h]) ==> c < h
  }

  /** The syntax that a handle stands for, without sharing. */
  datatype Tree = Absent | Tree(kind: nat, payload: nat, a: Tree, b: Tree, c: Tree, d: Tree)

  ghost function Unfold(nodes: seq<Node>, h: nat): Tree
    requires Backward(nodes) && h < |nodes|
  {
    if h == 0 then Absent else
    var n := nodes[h];
    assert {n.a, n.b, n.c, n.d} == Children(n);
    assert n.a in Children(n) && n.b in Children(n) && n.c in Children(n) && n.d in Children(n);
    Tree(n.kind, n.payload, Unfold(nodes, n.a), Unfold(nodes, n.b), Unfold(nodes, n.c), Unfold(nodes, n.d))
  }

  /** With sharing, handles are equal exactly when their trees are. */
  lemma {:induction false} SharedIsCanonical(nodes: seq<Node>, g: nat, h: nat)
    requires Backward(nodes) && Shared(nodes) && g < |nodes| && h < |nodes|
    ensures Unfold(nodes, g) == Unfold(nodes, h) <==> g == h
  {
    if g != 0 && h != 0 && Unfold(nodes, g) == Unfold(nodes, h) {
      var m, n := nodes[g], nodes[h];
      assert forall x :: x in [m.a, m.b, m.c, m.d] ==> x in Children(m);
      assert forall x :: x in [n.a, n.b, n.c, n.d] ==> x in Children(n);
      assert m.a in Children(m) && m.b in Children(m) && m.c in Children(m) && m.d in Children(m);
      assert n.a in Children(n) && n.b in Children(n) && n.c in Children(n) && n.d in Children(n);
      SharedIsCanonical(nodes, m.a, n.a);
      SharedIsCanonical(nodes, m.b, n.b);
      SharedIsCanonical(nodes, m.c, n.c);
      SharedIsCanonical(nodes, m.d, n.d);
      assert m == n;
    }
  }

  /** Appending changes no tree. */
  lemma {:induction false} UnfoldPrefix(nodes: seq<Node>, more: seq<Node>, h: nat)
    requires Backward(nodes) && Backward(more) && nodes <= more && h < |nodes|
    ensures Unfold(more, h) == Unfold(nodes, h)
  {
    if h != 0 {
      var n := nodes[h];
      assert n.a in Children(n) && n.b in Children(n) && n.c in Children(n) && n.d in Children(n);
      UnfoldPrefix(nodes, more, n.a);
      UnfoldPrefix(nodes, more, n.b);
      UnfoldPrefix(nodes, more, n.c);
      UnfoldPrefix(nodes, more, n.d);
    }
  }

  // ---- Reachability from the roots -----------------------------------------------------

  /** A root, or a child of a kept node. */
  ghost predicate Kept(nodes: seq<Node>, roots: set<nat>, h: nat)
    requires h < |nodes|
    decreases |nodes| - h
  {
    h in roots || exists p: nat :: h < p < |nodes| && Kept(nodes, roots, p) && h in Children(nodes[p])
  }

  ghost function KeptFrom(nodes: seq<Node>, roots: set<nat>, base: nat): set<nat> {
    set h | base <= h < |nodes| && Kept(nodes, roots, h)
  }

  /** Every child of a kept node that lies above the base is kept. */
  ghost predicate Closed(nodes: seq<Node>, base: nat, kept: set<nat>) {
    && (forall h :: h in kept ==> base <= h < |nodes|)
    && (forall h, c :: h in kept && c in Children(nodes[h]) && c >= base ==> c in kept)
  }

  lemma KeptIsClosed(nodes: seq<Node>, roots: set<nat>, base: nat)
    requires Backward(nodes) && 0 < base <= |nodes|
    ensures Closed(nodes, base, KeptFrom(nodes, roots, base))
  {
  }

  /** Handle `h` stands in the syntax of `r`. */
  ghost predicate PartOf(nodes: seq<Node>, r: nat, h: nat)
    decreases r
  {
    r < |nodes| && (h == r || exists c :: c in Children(nodes[r]) && c < r && PartOf(nodes, c, h))
  }

  lemma {:induction false} PartOfChild(nodes: seq<Node>, r: nat, p: nat, h: nat)
    requires Backward(nodes) && PartOf(nodes, r, p) && 0 < p < |nodes| && h in Children(nodes[p])
    ensures PartOf(nodes, r, h)
    decreases r
  {
    if r == p {
      assert PartOf(nodes, h, h);
    } else {
      var c :| c in Children(nodes[r]) && c < r && PartOf(nodes, c, p);
      PartOfChild(nodes, c, p, h);
    }
  }

  lemma {:induction false} PartIsKept(nodes: seq<Node>, roots: set<nat>, r: nat, h: nat)
    requires Backward(nodes) && PartOf(nodes, r, h) && r < |nodes| && Kept(nodes, roots, r) && 0 < h < |nodes|
    ensures Kept(nodes, roots, h)
    decreases r
  {
    if r != h {
      var c: nat :| c in Children(nodes[r]) && c < r && PartOf(nodes, c, h);
      if c > 0 { assert Kept(nodes, roots, c); }
      PartIsKept(nodes, roots, c, h);
    }
  }

  /** What is kept is just the syntax of the roots. */
  lemma {:induction false} KeptIsPart(nodes: seq<Node>, roots: set<nat>, h: nat)
    requires Backward(nodes) && 0 < h < |nodes|
    ensures Kept(nodes, roots, h) <==> exists r :: r in roots && PartOf(nodes, r, h)
    decreases |nodes| - h
  {
    if r :| r in roots && PartOf(nodes, r, h) {
      assert Kept(nodes, roots, r);
      PartIsKept(nodes, roots, r, h);
    }
    if Kept(nodes, roots, h) {
      if h in roots {
        assert PartOf(nodes, h, h);
      } else {
        var p: nat :| h < p < |nodes| && Kept(nodes, roots, p) && h in Children(nodes[p]);
        KeptIsPart(nodes, roots, p);
        var r :| r in roots && PartOf(nodes, r, p);
        PartOfChild(nodes, r, p, h);
      }
    }
  }

  // ---- Relocation ----------------------------------------------------------------------

  /** How many kept handles lie below `h`. */
  function Rank(kept: set<nat>, base: nat, h: nat): nat {
    if h <= base then 0 else Rank(kept, base, h - 1) + if h - 1 in kept then 1 else 0
  }

  function Moved(kept: set<nat>, base: nat, h: nat): nat {
    if h < base then h else if h in kept then base + Rank(kept, base, h) else 0
  }

  function MovedNode(kept: set<nat>, base: nat, n: Node): Node {
    Node(n.kind, n.payload, Moved(kept, base, n.a), Moved(kept, base, n.b), Moved(kept, base, n.c),
         Moved(kept, base, n.d))
  }

  /** The arena after the nodes below `i` have been compacted. */
  function Compacted(nodes: seq<Node>, kept: set<nat>, base: nat, i: nat): seq<Node>
    requires base <= i <= |nodes|
  {
    if i == base then nodes[..base]
    else Compacted(nodes, kept, base, i - 1) + if i - 1 in kept then [MovedNode(kept, base, nodes[i - 1])] else []
  }

  lemma {:induction false} CompactedLength(nodes: seq<Node>, kept: set<nat>, base: nat, i: nat)
    requires base <= i <= |nodes|
    ensures |Compacted(nodes, kept, base, i)| == base + Rank(kept, base, i)
    ensures Compacted(nodes, kept, base, i)[..base] == nodes[..base]
  {
    if i > base { CompactedLength(nodes, kept, base, i - 1); }
  }

  lemma {:induction false} RankMonotone(kept: set<nat>, base: nat, g: nat, h: nat)
    requires base <= g <= h
    ensures Rank(kept, base, g) <= Rank(kept, base, h) <= h - base
    ensures g in kept && g < h ==> Rank(kept, base, g) < Rank(kept, base, h)
    decreases h
  {
    if g < h {
      RankMonotone(kept, base, g, h - 1);
    } else if base < h {
      RankMonotone(kept, base, base, h - 1);
    }
  }

  lemma {:induction false} CompactedAt(nodes: seq<Node>, kept: set<nat>, base: nat, i: nat, h: nat)
    requires base <= h < i <= |nodes| && h in kept
    ensures Moved(kept, base, h) < |Compacted(nodes, kept, base, i)|
    ensures Compacted(nodes, kept, base, i)[Moved(kept, base, h)] == MovedNode(kept, base, nodes[h])
    decreases i
  {
    CompactedLength(nodes, kept, base, i - 1);
    CompactedLength(nodes, kept, base, i);
    if h < i - 1 { CompactedAt(nodes, kept, base, i - 1, h); }
  }

  /** Every new handle comes from a kept one. */
  lemma {:induction false} MovedFrom(nodes: seq<Node>, kept: set<nat>, base: nat, i: nat, g: nat) returns (h: nat)
    requires base <= i <= |nodes| && base <= g < |Compacted(nodes, kept, base, i)|
    ensures base <= h < i && h in kept && Moved(kept, base, h) == g
    decreases i
  {
    CompactedLength(nodes, kept, base, i);
    if i > base {
      CompactedLength(nodes, kept, base, i - 1);
      if g < |Compacted(nodes, kept, base, i - 1)| {
        h := MovedFrom(nodes, kept, base, i - 1, g);
      } else {
        h := i - 1;
      }
    }
  }

  /** Relocation is injective and increasing on what it keeps, and sends the rest to 0. */
  lemma MovedInjective(kept: set<nat>, base: nat, g: nat, h: nat)
    requires g < base || g in kept
    requires h < base || h in kept
    ensures Moved(kept, base, g) < Moved(kept, base, h) <==> g < h
    ensures Moved(kept, base, g) == Moved(kept, base, h) <==> g == h
    ensures Moved(kept, base, h) <= h
    ensures Moved(kept, base, h) < base <==> h < base
  {
    if base <= g { RankMonotone(kept, base, base, g); }
    if base <= h { RankMonotone(kept, base, base, h); }
    if base <= g <= h { RankMonotone(kept, base, g, h); }
    if base <= h <= g { RankMonotone(kept, base, h, g); }
  }

  lemma MovedChildren(nodes: seq<Node>, kept: set<nat>, base: nat, h: nat, c: nat)
    requires Backward(nodes) && 0 < base <= |nodes| && Closed(nodes, base, kept)
    requires h in kept && c in Children(MovedNode(kept, base, nodes[h]))
    ensures exists o :: o in Children(nodes[h]) && (o < base || o in kept) && c == Moved(kept, base, o) && o < h
  {
    var n := nodes[h];
    var o :| o in {n.a, n.b, n.c, n.d} && c == Moved(kept, base, o);
    assert o in Children(n);
  }

  /** Children still precede parents. */
  lemma CompactedBackward(nodes: seq<Node>, kept: set<nat>, base: nat)
    requires Backward(nodes) && 0 < base <= |nodes| && Closed(nodes, base, kept)
    ensures Backward(Compacted(nodes, kept, base, |nodes|))
  {
    var after := Compacted(nodes, kept, base, |nodes|);
    CompactedLength(nodes, kept, base, |nodes|);
    forall g, c | 0 < g < |after| && c in Children(after[g]) ensures c < g {
      if g < base {
        assert after[..base][g] == nodes[..base][g];
      } else {
        var h := MovedFrom(nodes, kept, base, |nodes|, g);
        CompactedAt(nodes, kept, base, |nodes|, h);
        MovedChildren(nodes, kept, base, h, c);
        var o :| o in Children(nodes[h]) && (o < base || o in kept) && c == Moved(kept, base, o) && o < h;
        MovedInjective(kept, base, o, h);
      }
    }
  }

  /** Commit preserves meaning: every kept handle's tree is the same after relocation. */
  lemma {:induction false} CompactedUnfold(nodes: seq<Node>, kept: set<nat>, base: nat, h: nat)
    requires Backward(nodes) && 0 < base <= |nodes| && Closed(nodes, base, kept)
    requires h < base || h in kept
    ensures Backward(Compacted(nodes, kept, base, |nodes|))
    ensures Moved(kept, base, h) < |Compacted(nodes, kept, base, |nodes|)|
    ensures Unfold(Compacted(nodes, kept, base, |nodes|), Moved(kept, base, h)) == Unfold(nodes, h)
  {
    var after := Compacted(nodes, kept, base, |nodes|);
    CompactedBackward(nodes, kept, base);
    CompactedLength(nodes, kept, base, |nodes|);
    if h < base {
      assert after[..base] <= after && nodes[..base] <= nodes;
      assert Backward(nodes[..base]);
      UnfoldPrefix(nodes[..base], nodes, h);
      UnfoldPrefix(nodes[..base], after, h);
    } else {
      CompactedAt(nodes, kept, base, |nodes|, h);
      var n := nodes[h];
      assert n.a in Children(n) && n.b in Children(n) && n.c in Children(n) && n.d in Children(n);
      CompactedUnfold(nodes, kept, base, n.a);
      CompactedUnfold(nodes, kept, base, n.b);
      CompactedUnfold(nodes, kept, base, n.c);
      CompactedUnfold(nodes, kept, base, n.d);
    }
  }

  /** Sharing survives: relocated nodes stay distinct from each other and from those
      below the base. */
  lemma CompactedShared(nodes: seq<Node>, kept: set<nat>, base: nat)
    requires Backward(nodes) && Shared(nodes) && 0 < base <= |nodes| && Closed(nodes, base, kept)
    ensures Shared(Compacted(nodes, kept, base, |nodes|))
  {
    var after := Compacted(nodes, kept, base, |nodes|);
    CompactedLength(nodes, kept, base, |nodes|);
    forall f, g | 0 < f < |after| && 0 < g < |after| && after[f] == after[g] ensures f == g {
      var o := Origin(nodes, kept, base, f);
      var p := Origin(nodes, kept, base, g);
      SameOrigin(nodes, kept, base, o, p);
    }
  }

  /** The old handle of a new one; its node is the old one relocated. */
  lemma Origin(nodes: seq<Node>, kept: set<nat>, base: nat, g: nat) returns (h: nat)
    requires Backward(nodes) && 0 < base <= |nodes| && Closed(nodes, base, kept)
    requires 0 < g < |Compacted(nodes, kept, base, |nodes|)|
    ensures 0 < h < |nodes| && (h < base || h in kept) && Moved(kept, base, h) == g
    ensures Compacted(nodes, kept, base, |nodes|)[g] == MovedNode(kept, base, nodes[h])
  {
    CompactedLength(nodes, kept, base, |nodes|);
    if g < base {
      h := g;
      assert Compacted(nodes, kept, base, |nodes|)[..base][g] == nodes[..base][g];
      var n := nodes[g];
      assert n.a in Children(n) && n.b in Children(n) && n.c in Children(n) && n.d in Children(n);
    } else {
      h := MovedFrom(nodes, kept, base, |nodes|, g);
      CompactedAt(nodes, kept, base, |nodes|, h);
    }
  }

  lemma SameOrigin(nodes: seq<Node>, kept: set<nat>, base: nat, g: nat, h: nat)
    requires Backward(nodes) && Shared(nodes) && 0 < base <= |nodes| && Closed(nodes, base, kept)
    requires 0 < g < |nodes| && (g < base || g in kept) && 0 < h < |nodes| && (h < base || h in kept)
    requires MovedNode(kept, base, nodes[g]) == MovedNode(kept, base, nodes[h])
    ensures g == h
  {
    var m, n := nodes[g], nodes[h];
    assert m.a in Children(m) && m.b in Children(m) && m.c in Children(m) && m.d in Children(m);
    assert n.a in Children(n) && n.b in Children(n) && n.c in Children(n) && n.d in Children(n);
    MovedInjective(kept, base, m.a, n.a);
    MovedInjective(kept, base, m.b, n.b);
    MovedInjective(kept, base, m.c, n.c);
    MovedInjective(kept, base, m.d, n.d);
    assert m == n;
  }
}
