/** The arena and the store that traversals use hold the same syntax. A node of the store is
    packed as one of the arena's; making it through the hash table or by searching gives
    the same handles over every run, and a commit of the arena keeps the nameless form of
    every handle that it keeps. */
module Graphs {
  import opened Nameless
  import opened TermStore
  import opened Interning
  import C = Compaction

  function Code(kind: Kind): nat {
    match kind
    case VAR => 1 case BOUND => 2 case OPENED => 3 case CONTEXT => 4 case LEAF => 5
    case PI => 6 case LAM => 7 case APP => 8
    case PATH => 9 case PLAM => 10 case PAPP => 11 case COMP => 12 case HCOMP => 13 case TRANS => 14 case TUBE => 15
  }

  function Packed(n: Syntax): C.Node { C.Node(Code(n.kind), n.payload, n.a, n.b, n.c, 0) }

  function PackedAll(nodes: seq<Syntax>): seq<C.Node> {
    seq(|nodes|, h requires 0 <= h < |nodes| => Packed(nodes[h]))
  }

  lemma PackedInjective(m: Syntax, n: Syntax)
    ensures Packed(m) == Packed(n) <==> m == n
  {
  }

  // ---- Hashing refines searching -------------------------------------------------------------

  /** Packing keeps sharing and what making a node does. */
  lemma PackedInterned(nodes: seq<Syntax>, n: Syntax, after: seq<Syntax>, h: nat)
    requires Shared(nodes) && Interned(nodes, n, after, h)
    ensures Shared(PackedAll(nodes)) && Interned(PackedAll(nodes), Packed(n), PackedAll(after), h)
  {
    forall f, g | 0 < f < |nodes| && 0 < g < |nodes| && PackedAll(nodes)[f] == PackedAll(nodes)[g] ensures f == g {
      PackedInjective(nodes[f], nodes[g]);
    }
    if after != nodes {
      assert PackedAll(after) == PackedAll(nodes) + [Packed(n)];
      forall g | 0 < g < |nodes| ensures PackedAll(nodes)[g] != Packed(n) { PackedInjective(nodes[g], n); }
    }
  }

  /** Asked for the same node, the hash graph answers as the search does. */
  lemma HashedIsSearched(nodes: seq<Syntax>, n: Syntax, searched: seq<Syntax>, h: nat, hashed: seq<C.Node>, g: nat)
    requires Shared(nodes) && Interned(nodes, n, searched, h) && Interned(PackedAll(nodes), Packed(n), hashed, g)
    ensures g == h && hashed == PackedAll(searched)
  {
    PackedInterned(nodes, n, searched, h);
    InternedOnce(PackedAll(nodes), Packed(n), PackedAll(searched), h, hashed, g);
  }

  /** The states that a run of requests passes through, and the handles it returns. */
  ghost predicate Run<N>(states: seq<seq<N>>, requests: seq<N>, handles: seq<nat>) {
    && |states| == |requests| + 1 == |handles| + 1
    && forall i :: 0 <= i < |requests| ==> Interned(states[i], requests[i], states[i + 1], handles[i])
  }

  /** Over a whole run: the same requests get the same handles. */
  lemma {:induction false} RunsAgree(states: seq<seq<Syntax>>, requests: seq<Syntax>, handles: seq<nat>,
                                     hashed: seq<seq<C.Node>>, handles': seq<nat>, i: nat)
    requires Run(states, requests, handles) && Run(hashed, PackedAll(requests), handles') && i <= |requests|
    requires Shared(states[0]) && hashed[0] == PackedAll(states[0])
    ensures Shared(states[i]) && hashed[i] == PackedAll(states[i]) && handles[..i] == handles'[..i]
  {
    if i > 0 {
      RunsAgree(states, requests, handles, hashed, handles', i - 1);
      assert Interned(states[i - 1], requests[i - 1], states[i], handles[i - 1]);
      assert Interned(hashed[i - 1], PackedAll(requests)[i - 1], hashed[i], handles'[i - 1]);
      InternedShared(states[i - 1], requests[i - 1], states[i], handles[i - 1]);
      HashedIsSearched(states[i - 1], requests[i - 1], states[i], handles[i - 1], hashed[i], handles'[i - 1]);
      assert handles[..i] == handles[..i - 1] + [handles[i - 1]];
      assert handles'[..i] == handles'[..i - 1] + [handles'[i - 1]];
    }
  }

  // ---- A commit keeps every form -----------------------------------------------------------------

  lemma PackedBackward(nodes: seq<Syntax>, meaning: seq<Form>, formulas: seq<FormulaEntry>)
    requires GraphOk(nodes, meaning, formulas)
    ensures C.Backward(PackedAll(nodes))
  {
    forall h, c | 0 < h < |nodes| && c in C.Children(PackedAll(nodes)[h]) ensures c < h {
      assert HandleOk(nodes, meaning, formulas, h);
    }
  }

  function MovedSyntax(kept: set<nat>, base: nat, n: Syntax): Syntax {
    Syntax(n.kind, n.payload, C.Moved(kept, base, n.a), C.Moved(kept, base, n.b), C.Moved(kept, base, n.c))
  }

  function CompactedSyntax(nodes: seq<Syntax>, kept: set<nat>, base: nat, i: nat): seq<Syntax>
    requires base <= i <= |nodes|
  {
    if i == base then nodes[..base]
    else
      CompactedSyntax(nodes, kept, base, i - 1) + if i - 1 in kept then [MovedSyntax(kept, base, nodes[i - 1])] else []
  }

  function CompactedForms(meaning: seq<Form>, kept: set<nat>, base: nat, i: nat): seq<Form>
    requires base <= i <= |meaning|
  {
    if i == base then meaning[..base]
    else CompactedForms(meaning, kept, base, i - 1) + if i - 1 in kept then [meaning[i - 1]] else []
  }

  lemma {:induction false} CompactedIsPacked(nodes: seq<Syntax>, kept: set<nat>, base: nat, i: nat)
    requires 0 < base <= i <= |nodes|
    ensures PackedAll(CompactedSyntax(nodes, kept, base, i)) == C.Compacted(PackedAll(nodes), kept, base, i)
  {
    if i == base {
      assert PackedAll(nodes[..base]) == PackedAll(nodes)[..base];
    } else {
      CompactedIsPacked(nodes, kept, base, i - 1);
      if i - 1 in kept {
        var before := CompactedSyntax(nodes, kept, base, i - 1);
        var n := MovedSyntax(kept, base, nodes[i - 1]);
        assert PackedAll(before + [n]) == PackedAll(before) + [Packed(n)];
        assert PackedAll(nodes)[i - 1] == Packed(nodes[i - 1]);
        assert Packed(n) == C.MovedNode(kept, base, Packed(nodes[i - 1]));
      }
    }
  }

  /** A kept handle's form is at its new handle. */
  lemma {:induction false} FormMoved(nodes: seq<Syntax>, meaning: seq<Form>, kept: set<nat>, base: nat, i: nat, h: nat)
    requires 0 < base <= i <= |nodes| == |meaning| && h < i && (h < base || h in kept)
    ensures |CompactedForms(meaning, kept, base, i)| == |CompactedSyntax(nodes, kept, base, i)|
    ensures C.Moved(kept, base, h) < |CompactedForms(meaning, kept, base, i)|
    ensures CompactedForms(meaning, kept, base, i)[C.Moved(kept, base, h)] == meaning[h]
    decreases i
  {
    C.CompactedLength(PackedAll(nodes), kept, base, i);
    CompactedIsPacked(nodes, kept, base, i);
    if i > base {
      C.CompactedLength(PackedAll(nodes), kept, base, i - 1);
      CompactedIsPacked(nodes, kept, base, i - 1);
      if h < i - 1 { FormMoved(nodes, meaning, kept, base, i - 1, h); }
      else { FormMoved(nodes, meaning, kept, base, i - 1, 0); }
    }
  }

  /** After a commit, the compacted nodes are again a graph of forms, in which every handle
      that was kept has the form it had: no later comparison or substitution can tell. */
  lemma CommitKeepsForms(nodes: seq<Syntax>, meaning: seq<Form>, formulas: seq<FormulaEntry>, kept: set<nat>, base: nat)
    requires GraphOk(nodes, meaning, formulas) && 0 < base <= |nodes| && C.Closed(PackedAll(nodes), base, kept)
    ensures var after := CompactedSyntax(nodes, kept, base, |nodes|);
            var forms := CompactedForms(meaning, kept, base, |nodes|);
            && PackedAll(after) == C.Compacted(PackedAll(nodes), kept, base, |nodes|)
            && GraphOk(after, forms, formulas)
            && forall h: nat :: h < |nodes| && (h < base || h in kept) ==>
                 C.Moved(kept, base, h) < |forms| && forms[C.Moved(kept, base, h)] == meaning[h]
  {
    var after := CompactedSyntax(nodes, kept, base, |nodes|);
    var forms := CompactedForms(meaning, kept, base, |nodes|);
    CompactedIsPacked(nodes, kept, base, |nodes|);
    PackedBackward(nodes, meaning, formulas);
    C.CompactedBackward(PackedAll(nodes), kept, base);
    forall h: nat | h < |nodes| && (h < base || h in kept)
      ensures |forms| == |after| && C.Moved(kept, base, h) < |forms| && forms[C.Moved(kept, base, h)] == meaning[h]
    {
      FormMoved(nodes, meaning, kept, base, |nodes|, h);
    }
    assert C.Moved(kept, base, 0) == 0;
    forall g | 0 < g < |after| ensures HandleOk(after, forms, formulas, g) {
      SurvivorOk(nodes, meaning, formulas, kept, base, g);
    }
  }

  lemma SurvivorOk(nodes: seq<Syntax>, meaning: seq<Form>, formulas: seq<FormulaEntry>, kept: set<nat>, base: nat,
                   g: nat)
    requires GraphOk(nodes, meaning, formulas) && 0 < base <= |nodes| && C.Closed(PackedAll(nodes), base, kept)
    requires C.Backward(PackedAll(nodes)) && 0 < g < |CompactedSyntax(nodes, kept, base, |nodes|)|
    ensures |CompactedForms(meaning, kept, base, |nodes|)| == |CompactedSyntax(nodes, kept, base, |nodes|)|
    ensures HandleOk(CompactedSyntax(nodes, kept, base, |nodes|), CompactedForms(meaning, kept, base, |nodes|),
                     formulas, g)
  {
    var packed := PackedAll(nodes);
    var after := CompactedSyntax(nodes, kept, base, |nodes|);
    CompactedIsPacked(nodes, kept, base, |nodes|);
    C.CompactedBackward(packed, kept, base);
    var h := C.Origin(packed, kept, base, g);
    var n := nodes[h];
    assert PackedAll(after)[g] == Packed(after[g]) && packed[h] == Packed(n);
    assert after[g] == MovedSyntax(kept, base, n) by { PackedInjective(after[g], MovedSyntax(kept, base, n)); }
    assert HandleOk(nodes, meaning, formulas, h);
    FormMoved(nodes, meaning, kept, base, |nodes|, h);
    assert n.a in C.Children(packed[h]) && n.b in C.Children(packed[h]) && n.c in C.Children(packed[h]);
    FormMoved(nodes, meaning, kept, base, |nodes|, n.a);
    FormMoved(nodes, meaning, kept, base, |nodes|, n.b);
    FormMoved(nodes, meaning, kept, base, |nodes|, n.c);
    assert after[g].a in C.Children(PackedAll(after)[g]) && after[g].b in C.Children(PackedAll(after)[g]);
    assert after[g].c in C.Children(PackedAll(after)[g]);
    if n.b != 0 {
      assert HandleOk(nodes, meaning, formulas, n.b);
      KindMoved(nodes, kept, base, n.b);
    }
  }

  /** A kept node keeps its kind. */
  lemma KindMoved(nodes: seq<Syntax>, kept: set<nat>, base: nat, h: nat)
    requires 0 < base <= |nodes| && h < |nodes| && (h < base || h in kept)
    ensures var after := CompactedSyntax(nodes, kept, base, |nodes|);
            C.Moved(kept, base, h) < |after| && after[C.Moved(kept, base, h)].kind == nodes[h].kind
  {
    var packed := PackedAll(nodes);
    var after := CompactedSyntax(nodes, kept, base, |nodes|);
    CompactedIsPacked(nodes, kept, base, |nodes|);
    C.CompactedLength(packed, kept, base, |nodes|);
    if h < base {
      assert PackedAll(after)[..base][h] == packed[..base][h];
      assert PackedAll(after)[h] == Packed(after[h]) && packed[h] == Packed(nodes[h]);
    } else {
      C.CompactedAt(packed, kept, base, |nodes|, h);
      var g := C.Moved(kept, base, h);
      assert PackedAll(after)[g] == Packed(after[g]) && packed[h] == Packed(nodes[h]);
    }
  }
}
