/** What making a node means: identical syntax is one handle. The hash graph and the plain
    search for an equal node both do exactly this. */
module Interning {

  ghost predicate Unmade<N>(nodes: seq<N>, n: N) { forall g :: 0 < g < |nodes| ==> nodes[g] != n }

  /** Handle `h` is `n`'s: the only one it had, or a new one if it had none. Handle 0 is
      no node. */
  ghost predicate Interned<N>(before: seq<N>, n: N, after: seq<N>, h: nat) {
    && 0 < h < |after| && after[h] == n
    && (after == before || (after == before + [n] && h == |before| && Unmade(before, n)))
  }

  /** Identical syntax is one node. */
  ghost predicate Shared<N>(nodes: seq<N>) {
    forall g, h :: 0 < g < |nodes| && 0 < h < |nodes| && nodes[g] == nodes[h] ==> g == h
  }

  lemma InternedShared<N>(before: seq<N>, n: N, after: seq<N>, h: nat)
    requires Shared(before) && Interned(before, n, after, h)
    ensures Shared(after)
  {
  }

  /** The handle and the graph are determined. */
  lemma InternedOnce<N>(before: seq<N>, n: N, after: seq<N>, h: nat, after': seq<N>, h': nat)
    requires Shared(before) && Interned(before, n, after, h) && Interned(before, n, after', h')
    ensures after == after' && h == h'
  {
  }
}
