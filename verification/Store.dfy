/** The kernel state that traversals of syntax share: the graph of nodes, their masks,
    the formula table, the memo, the symbol supply and the step budget. */
module Store {
  import opened Lattice
  import opened Nameless
  import opened FreeNames
  import opened Formulas
  import opened TermStore
  import opened Interning

  class Kernel {
    /** The memo's slot for a key; any function will do. */
    const slot: (nat, nat, nat, nat) -> nat
    const memo: array<MemoEntry>
    /** The most handles there may be. */
    const limit: nat

    var nodes: seq<Syntax>
    var symbols: seq<set<nat>>
    var masks: seq<set<nat>>
    var known: seq<bool>
    var formulas: seq<FormulaEntry>
    var nextSymbol: nat
    var budget: nat
    var failed: bool
    ghost var meaning: seq<Form>
    ghost var bones: seq<Skeleton>

    /** Compared to `true` so that it is proved as one fact. */
    ghost predicate Valid() reads this, memo {
      true ==
        (GraphOk(nodes, meaning, formulas) && BonesOk(nodes, bones) && MasksOk(meaning, symbols, masks, known)
         && NamesBelow(meaning, nextSymbol) && memo.Length > 0 && MemoOk(bones, meaning, formulas, memo[..]))
    }

    /** What every operation keeps: what was made stays, and no step is given back. */
    twostate predicate Grown() reads this {
      && Extends(old(nodes), old(meaning), old(formulas), nodes, meaning, formulas)
      && old(bones) <= bones && budget <= old(budget) && (old(failed) ==> failed)
    }

    constructor (slot: (nat, nat, nat, nat) -> nat, size: nat, limit: nat, budget: nat)
      requires size > 0
      ensures Valid() && |nodes| == 1 && !failed && this.budget == budget && fresh(memo)
    {
      this.slot, this.limit, this.budget := slot, limit, budget;
      memo := new MemoEntry[size](_ => MemoEntry(0, 0, 0, 0, 0));
      nodes, meaning, bones := [Syntax(LEAF, 0, 0, 0, 0)], [Absent], [NoBone];
      symbols, masks, known := [{}], [{}], [false];
      formulas := [FormulaEntry(Interval, [])];
      nextSymbol, failed := 1, false;
    }

    method Fail()
      requires Valid()
      modifies `failed
      ensures Valid() && failed
    {
      failed := true;
    }

    method Tick() returns (ok: bool)
      requires Valid()
      modifies `budget, `failed
      ensures Valid() && ok == !failed && (old(failed) ==> failed) && budget <= old(budget)
      ensures ok ==> budget < old(budget)
    {
      if failed { return false; }
      if budget == 0 {
        failed := true;
        return false;
      }
      budget := budget - 1;
      return true;
    }

    /** A symbol that no term mentions. */
    method FreshSymbol() returns (symbol: nat)
      requires Valid()
      modifies `nextSymbol, `failed
      ensures Valid() && (old(failed) ==> failed)
      ensures !failed ==> symbol < MAX_SYMBOL && symbol >= old(nextSymbol) && nextSymbol == symbol + 1
      ensures nextSymbol >= old(nextSymbol)
    {
      if nextSymbol >= MAX_SYMBOL {
        failed := true;
        return 0;
      }
      symbol := nextSymbol;
      nextSymbol := nextSymbol + 1;
      assert NamesBelow(meaning, nextSymbol);
    }

    /** The least dimension to spare. */
    method FreshDimension(avoid: set<nat>) returns (d: nat)
      requires Valid()
      modifies `failed
      ensures Valid() && (old(failed) ==> failed)
      ensures !failed ==> d < DIMENSIONS && d !in avoid
      ensures !old(failed) && failed ==> forall e :: 0 <= e < DIMENSIONS ==> e in avoid
    {
      d := 0;
      while d < DIMENSIONS
        invariant d <= DIMENSIONS && forall e :: 0 <= e < d ==> e in avoid
        invariant Valid() && failed == old(failed)
      {
        if d !in avoid { return; }
        d := d + 1;
      }
      failed := true;
    }

    /** The handle of a node: an existing one for the same node, or a new one. */
    method Make(n: Syntax) returns (h: nat)
      requires Valid() && SyntaxOk(nodes, formulas, n, |nodes|)
      modifies this
      ensures Valid() && Grown() && budget == old(budget) && formulas == old(formulas)
      ensures !failed ==>
                && 0 < h < |nodes| && nodes[h] == n && meaning[h] == NodeForm(formulas, meaning, n)
                && bones[h] == BoneOf(bones, n)
      ensures !failed ==> Interned(old(nodes), n, nodes, h)
      ensures failed ==> h == 0 && nodes == old(nodes)
      ensures nextSymbol >= old(nextSymbol)
    {
      if failed { return 0; }
      if LacksChild(n) || ((n.kind in {VAR, BOUND, OPENED} || TermBinder(n.kind)) && n.payload >= MAX_SYMBOL) {
        failed := true;
        return 0;
      }
      h := 1;
      while h < |nodes|
        invariant 0 < h <= |nodes| && unchanged(this)
        invariant forall g :: 0 < g < h ==> nodes[g] != n
      {
        if nodes[h] == n {
          assert HandleOk(nodes, meaning, formulas, h) && BoneOk(nodes, bones, h);
          return;
        }
        h := h + 1;
      }
      if |nodes| >= limit || Depth(nodes + [n], |nodes|) > MAX_DEPTH {
        failed := true;
        return 0;
      }
      Append(n);
    }

    method Append(n: Syntax)
      requires Valid() && SyntaxOk(nodes, formulas, n, |nodes|)
      modifies `nodes, `symbols, `masks, `known, `nextSymbol, `meaning, `bones
      ensures Valid() && nodes == old(nodes) + [n]
      ensures meaning == old(meaning) + [NodeForm(formulas, old(meaning), n)]
      ensures bones == old(bones) + [BoneOf(old(bones), n)]
      ensures nextSymbol >= old(nextSymbol)
    {
      ghost var m := NodeForm(formulas, meaning, n);
      NewHandleOk(nodes, meaning, formulas, n);
      NewMasksOk(nodes, meaning, formulas, n, symbols, masks, known);
      MasksAppend(meaning, symbols, masks, known, m, NewSymbols(n, symbols), NewMask(n, formulas, masks));
      NamesAppend(nodes, meaning, formulas, n, nextSymbol);
      MemoStable(bones, meaning, formulas, bones + [BoneOf(bones, n)], meaning + [m], formulas, memo[..]);
      BonesAppend(nodes, bones, n);
      if (n.kind == VAR || TermBinder(n.kind)) && n.payload >= nextSymbol { nextSymbol := n.payload + 1; }
      symbols := symbols + [NewSymbols(n, symbols)];
      masks := masks + [NewMask(n, formulas, masks)];
      known := known + [false];
      nodes := nodes + [n];
      meaning := meaning + [m];
      bones := bones + [BoneOf(bones, n)];
    }

    /** The table's entry for a formula with the same clauses, or a new one. */
    method Intern(sort: Sort, list: seq<DimClause>) returns (id: nat)
      requires Valid() && ListNormal(sort, list)
      modifies this
      ensures Valid() && Grown() && nodes == old(nodes) && meaning == old(meaning) && bones == old(bones)
      ensures budget == old(budget)
      ensures !failed ==> 0 < id < |formulas| && formulas[id].sort == sort
      ensures !failed ==> SetOf(formulas[id].list) == SetOf(list)
      ensures failed ==> id == 0
      ensures nextSymbol == old(nextSymbol) && known == old(known) && masks == old(masks)
    {
      if failed { return 0; }
      id := 1;
      while id < |formulas|
        invariant 0 < id <= |formulas| && unchanged(this)
      {
        if formulas[id].sort == sort && SameClauses(formulas[id].list, list) {
          EqualityIsComplete(sort, formulas[id].list, list);
          return;
        }
        id := id + 1;
      }
      var copy := CopyRun(sort, list);
      CopyMeaning(sort, list);
      if copy.Limit? {
        failed := true;
        return 0;
      }
      ListNormalIsNormal(sort, list);
      ReduceFixed(sort, SetOf(list));
      NewFormulaOk(nodes, meaning, formulas, FormulaEntry(sort, copy.list));
      MemoStable(bones, meaning, formulas, bones, meaning, formulas + [FormulaEntry(sort, copy.list)], memo[..]);
      formulas := formulas + [FormulaEntry(sort, copy.list)];
    }

    // ---- The memo -----------------------------------------------------------------------

    method MemoGet(operation: nat, term: nat, name: nat, value: nat) returns (found: bool, result: nat)
      requires Valid() && operation != 0
      ensures found ==> EntryOk(bones, meaning, formulas, MemoEntry(operation, term, name, value, result))
    {
      var i := slot(operation, term, name, value) % memo.Length;
      var entry := memo[i];
      assert memo[..][i] == entry;
      if entry.operation != operation || entry.term != term || entry.name != name || entry.value != value {
        return false, 0;
      }
      return true, entry.result;
    }

    /** Overwrites the slot; a collision only loses an older entry. */
    method MemoPut(operation: nat, term: nat, name: nat, value: nat, result: nat)
      requires Valid()
      requires (!failed ==> EntryOk(bones, meaning, formulas, MemoEntry(operation, term, name, value, result)))
      modifies memo
      ensures Valid()
    {
      if failed { return; }
      ghost var was := memo[..];
      var i := slot(operation, term, name, value) % memo.Length;
      memo[i] := MemoEntry(operation, term, name, value, result);
      assert memo[..] == was[i := MemoEntry(operation, term, name, value, result)];
    }
  }
}
