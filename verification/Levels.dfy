/** levels.c: universe levels are ordinals below omega squared, decided by arithmetic
    on normal forms.

    Levels are trees here; `LevelArena` reads them off the syntax arena, where
    subterms are shared. */
module Levels {

  const LEVEL_MAX := 65535
  const TIER_MAX := 255

  datatype Option<+T> = None | Some(value: T)

  /** Variables range over the natural numbers. A constant is omega * tier + value. */
  datatype Level =
    | Const(tier: nat, value: nat)
    | Var(symbol: nat)
    | Succ(count: nat, base: Level)
    | Max(left: Level, right: Level)

  /** omega * tier + finite. */
  datatype Ordinal = Ordinal(tier: nat, finite: nat) {
    predicate Leq(other: Ordinal) {
      tier < other.tier || (tier == other.tier && finite <= other.finite)
    }

    function Join(other: Ordinal): Ordinal {
      if Leq(other) then other else this
    }
  }

  /** The order is total, joins are least upper bounds, adding 1 gives the next ordinal, and
      omega * (tier + 1) comes right after all of its finite predecessors. */
  lemma OrdinalLaws(a: Ordinal, b: Ordinal, c: Ordinal)
    ensures (a.Leq(b) || b.Leq(a)) && (a.Leq(b) && b.Leq(a) ==> a == b) && (a.Leq(b) && b.Leq(c) ==> a.Leq(c))
    ensures a.Leq(a.Join(b)) && b.Leq(a.Join(b)) && (a.Leq(c) && b.Leq(c) ==> a.Join(b).Leq(c))
    ensures !Ordinal(a.tier, a.finite + 1).Leq(a) && (!b.Leq(a) ==> Ordinal(a.tier, a.finite + 1).Leq(b))
    ensures Ordinal(a.tier + 1, 0).Leq(b) <==> forall n: nat :: Ordinal(a.tier, n).Leq(b)
  {
    if forall n: nat :: Ordinal(a.tier, n).Leq(b) { assert Ordinal(a.tier, b.finite + 1).Leq(b); }
  }

  type Assignment = nat -> nat

  function Zeros(): Assignment { x => 0 }

  /** What a level denotes. */
  function Value(l: Level, env: Assignment): Ordinal {
    match l
    case Const(tier, value) => Ordinal(tier, value)
    case Var(x) => Ordinal(0, env(x))
    case Succ(n, base) => var v := Value(base, env); Ordinal(v.tier, v.finite + n)
    case Max(a, b) => Value(a, env).Join(Value(b, env))
  }

  /** No intermediate constant exceeds the kernel's bounds. */
  predicate InBounds(l: Level) {
    match l
    case Const(tier, value) => tier <= TIER_MAX && value <= LEVEL_MAX
    case Var(_) => true
    case Succ(n, base) => InBounds(base) && Value(l, Zeros()).finite <= LEVEL_MAX
    case Max(a, b) => InBounds(a) && InBounds(b)
  }

  // ---- Normal forms ----------------------------------------------------------------

  datatype Term = Term(key: nat, offset: nat)

  /** Tier 0: the maximum of the constant and each variable plus its offset. Tier 1
      and above: a constant, which absorbs every variable. */
  datatype Nf = Nf(tier: nat, constant: nat, terms: seq<Term>)

  predicate Sorted(terms: seq<Term>) {
    forall i, j :: 0 <= i < j < |terms| ==> terms[i].key < terms[j].key
  }

  predicate WellFormed(nf: Nf) {
    && nf.tier <= TIER_MAX && nf.constant <= LEVEL_MAX
    && (nf.tier > 0 ==> nf.terms == [])
    && Sorted(nf.terms)
    && forall i :: 0 <= i < |nf.terms| ==> nf.terms[i].offset <= nf.constant
  }

  function Larger(a: nat, b: nat): nat { if a < b then b else a }

  function Highest(constant: nat, terms: seq<Term>, env: Assignment): nat {
    if terms == [] then constant
    else Larger(env(terms[0].key) + terms[0].offset, Highest(constant, terms[1..], env))
  }

  function NfValue(nf: Nf, env: Assignment): Ordinal {
    if nf.tier > 0 then Ordinal(nf.tier, nf.constant) else Ordinal(0, Highest(nf.constant, nf.terms, env))
  }

  function Raised(terms: seq<Term>, n: nat): seq<Term> {
    seq(|terms|, i requires 0 <= i < |terms| => Term(terms[i].key, terms[i].offset + n))
  }

  function AddNf(nf: Nf, n: nat): Option<Nf> {
    if n == 0 then Some(nf)
    else if nf.constant + n > LEVEL_MAX then None
    else Some(Nf(nf.tier, nf.constant + n, Raised(nf.terms, n)))
  }

  /** The merge of two sorted lists, with the larger offset of a common key. */
  function Merge(a: seq<Term>, b: seq<Term>): seq<Term>
    decreases |a| + |b|
  {
    if b == [] then a
    else if a == [] then b
    else if a[0].key < b[0].key then [a[0]] + Merge(a[1..], b)
    else if b[0].key < a[0].key then [b[0]] + Merge(a, b[1..])
    else [Term(a[0].key, Larger(a[0].offset, b[0].offset))] + Merge(a[1..], b[1..])
  }

  function JoinNf(a: Nf, b: Nf): Nf {
    if a.tier == 0 && b.tier == 0 then Nf(0, Larger(a.constant, b.constant), Merge(a.terms, b.terms))
    else if a.tier == 0 || (b.tier > 0 && (b.tier > a.tier || (b.tier == a.tier && b.constant > a.constant)))
    then Nf(b.tier, b.constant, [])
    else Nf(a.tier, a.constant, [])
  }

  function Normalize(l: Level): Option<Nf> {
    match l
    case Const(tier, value) => if tier > TIER_MAX || value > LEVEL_MAX then None else Some(Nf(tier, value, []))
    case Var(x) => Some(Nf(0, 0, [Term(x, 0)]))
    case Succ(n, base) => Plus(Normalize(base), n)
    case Max(a, b) => Joined(Normalize(a), Normalize(b))
  }

  function Plus(nf: Option<Nf>, n: nat): Option<Nf> {
    if nf.None? then None else AddNf(nf.value, n)
  }

  function Joined(a: Option<Nf>, b: Option<Nf>): Option<Nf> {
    if a.None? || b.None? then None else Some(JoinNf(a.value, b.value))
  }

  // ---- Soundness -------------------------------------------------------------------

  /** The value of a finite form is the least upper bound of its parts. */
  lemma {:induction false} HighestBound(constant: nat, terms: seq<Term>, env: Assignment, bound: nat)
    ensures Highest(constant, terms, env) <= bound <==>
            constant <= bound && forall i :: 0 <= i < |terms| ==> env(terms[i].key) + terms[i].offset <= bound
  {
    if terms != [] {
      HighestBound(constant, terms[1..], env, bound);
      if Highest(constant, terms, env) <= bound {
        forall i | 0 <= i < |terms| ensures env(terms[i].key) + terms[i].offset <= bound {
          if i > 0 { assert terms[i] == terms[1..][i - 1]; }
        }
      } else if constant <= bound && forall i :: 0 <= i < |terms| ==> env(terms[i].key) + terms[i].offset <= bound {
        forall i | 0 <= i < |terms[1..]| ensures env(terms[1..][i].key) + terms[1..][i].offset <= bound {
          assert terms[1..][i] == terms[i + 1];
        }
      }
    }
  }

  lemma {:induction false} RaisedValue(constant: nat, terms: seq<Term>, n: nat, env: Assignment)
    ensures Highest(constant + n, Raised(terms, n), env) == Highest(constant, terms, env) + n
  {
    if terms != [] {
      RaisedValue(constant, terms[1..], n, env);
      assert Raised(terms, n)[1..] == Raised(terms[1..], n);
    }
  }

  lemma {:induction false} MergeValue(c: nat, d: nat, a: seq<Term>, b: seq<Term>, env: Assignment)
    ensures Highest(Larger(c, d), Merge(a, b), env) == Larger(Highest(c, a, env), Highest(d, b, env))
    decreases |a| + |b|
  {
    if b == [] {
      HighestLarger(c, d, a, env);
    } else if a == [] {
      HighestLarger(d, c, b, env);
    } else if a[0].key < b[0].key {
      MergeValue(c, d, a[1..], b, env);
    } else if b[0].key < a[0].key {
      MergeValue(c, d, a, b[1..], env);
    } else {
      MergeValue(c, d, a[1..], b[1..], env);
    }
  }

  lemma {:induction false} HighestLarger(c: nat, d: nat, a: seq<Term>, env: Assignment)
    ensures Highest(Larger(c, d), a, env) == Larger(Highest(c, a, env), d)
  {
    if a != [] { HighestLarger(c, d, a[1..], env); }
  }

  lemma {:induction false} MergeSorted(a: seq<Term>, b: seq<Term>, low: int, top: nat)
    requires Sorted(a) && Sorted(b)
    requires forall i :: 0 <= i < |a| ==> low < a[i].key && a[i].offset <= top
    requires forall i :: 0 <= i < |b| ==> low < b[i].key && b[i].offset <= top
    ensures Sorted(Merge(a, b))
    ensures forall i :: 0 <= i < |Merge(a, b)| ==> low < Merge(a, b)[i].key && Merge(a, b)[i].offset <= top
    decreases |a| + |b|
  {
    if b != [] && a != [] {
      if a[0].key < b[0].key {
        MergeSorted(a[1..], b, a[0].key, top);
      } else if b[0].key < a[0].key {
        MergeSorted(a, b[1..], b[0].key, top);
      } else {
        MergeSorted(a[1..], b[1..], a[0].key, top);
      }
    }
  }

  lemma AddSound(nf: Nf, n: nat, env: Assignment)
    requires WellFormed(nf)
    ensures match AddNf(nf, n)
            case None => nf.constant + n > LEVEL_MAX
            case Some(sum) =>
              && WellFormed(sum)
              && NfValue(sum, env) == Ordinal(NfValue(nf, env).tier, NfValue(nf, env).finite + n)
  {
    RaisedValue(nf.constant, nf.terms, n, env);
  }

  lemma JoinSound(a: Nf, b: Nf, env: Assignment)
    requires WellFormed(a) && WellFormed(b)
    ensures WellFormed(JoinNf(a, b))
    ensures NfValue(JoinNf(a, b), env) == NfValue(a, env).Join(NfValue(b, env))
  {
    MergeSorted(a.terms, b.terms, -1, Larger(a.constant, b.constant));
    MergeValue(a.constant, b.constant, a.terms, b.terms, env);
  }

  lemma ZeroValue(nf: Nf)
    requires WellFormed(nf)
    ensures NfValue(nf, Zeros()) == Ordinal(nf.tier, nf.constant)
  {
    if nf.tier == 0 {
      var highest := Highest(nf.constant, nf.terms, Zeros());
      assert forall i :: 0 <= i < |nf.terms| ==> Zeros()(nf.terms[i].key) == 0;
      HighestBound(nf.constant, nf.terms, Zeros(), nf.constant);
      HighestBound(nf.constant, nf.terms, Zeros(), highest);
      assert nf.constant <= highest <= nf.constant;
    }
  }

  /** Normalization fails exactly outside the bounds, and preserves every value. The
      offsets stay below the constant, so the one bound check of an addition also
      bounds them. */
  lemma {:induction false} NormalizeSound(l: Level, env: Assignment)
    ensures Normalize(l).Some? <==> InBounds(l)
    ensures Normalize(l).Some? ==>
              WellFormed(Normalize(l).value) && NfValue(Normalize(l).value, env) == Value(l, env)
  {
    match l
    case Const(_, _) =>
    case Var(x) => assert Highest(0, [Term(x, 0)], env) == Larger(env(x), Highest(0, [], env));
    case Succ(n, base) =>
      NormalizeSound(base, env);
      NormalizeSound(base, Zeros());
      if Normalize(base).Some? {
        ZeroValue(Normalize(base).value);
        AddSound(Normalize(base).value, n, env);
      }
    case Max(a, b) =>
      NormalizeSound(a, env);
      NormalizeSound(b, env);
      if InBounds(l) { JoinSound(Normalize(a).value, Normalize(b).value, env); }
  }

  // ---- Completeness ----------------------------------------------------------------

  predicate HasAtLeast(terms: seq<Term>, t: Term) {
    exists j :: 0 <= j < |terms| && terms[j].key == t.key && t.offset <= terms[j].offset
  }

  predicate Dominates(b: seq<Term>, a: seq<Term>) {
    forall i {:trigger HasAtLeast(b, a[i])} :: 0 <= i < |a| ==> HasAtLeast(b, a[i])
  }

  /** The condition that the order test checks. */
  predicate LeqNf(a: Nf, b: Nf) {
    if a.tier == 0 && b.tier == 0 then
      a.constant <= b.constant && Dominates(b.terms, a.terms)
    else
      Ordinal(a.tier, a.constant).Leq(Ordinal(b.tier, b.constant))
  }

  lemma LeqSound(a: Nf, b: Nf, env: Assignment)
    requires WellFormed(a) && WellFormed(b) && LeqNf(a, b)
    ensures NfValue(a, env).Leq(NfValue(b, env))
  {
    if a.tier == 0 && b.tier == 0 {
      var top := Highest(b.constant, b.terms, env);
      HighestBound(b.constant, b.terms, env, top);
      forall i | 0 <= i < |a.terms| ensures env(a.terms[i].key) + a.terms[i].offset <= top {
        assert HasAtLeast(b.terms, a.terms[i]);
        var j :| 0 <= j < |b.terms| && b.terms[j].key == a.terms[i].key && a.terms[i].offset <= b.terms[j].offset;
      }
      HighestBound(a.constant, a.terms, env, top);
    }
  }

  /** The assignment that sends one variable far above every constant. */
  function Peak(x: nat): Assignment { y => if y == x then 2 * LEVEL_MAX else 0 }

  lemma LeqComplete(a: Nf, b: Nf)
    requires WellFormed(a) && WellFormed(b)
    requires NfValue(a, Zeros()).Leq(NfValue(b, Zeros()))
    requires forall i :: 0 <= i < |a.terms| ==> NfValue(a, Peak(a.terms[i].key)).Leq(NfValue(b, Peak(a.terms[i].key)))
    ensures LeqNf(a, b)
  {
    ZeroValue(a);
    ZeroValue(b);
    if a.tier == 0 && b.tier == 0 {
      forall i | 0 <= i < |a.terms| ensures HasAtLeast(b.terms, a.terms[i]) {
        var t := a.terms[i];
        var peak := Peak(t.key);
        HighestBound(a.constant, a.terms, peak, Highest(a.constant, a.terms, peak));
        if !HasAtLeast(b.terms, t) {
          HighestBound(b.constant, b.terms, peak, peak(t.key) + t.offset - 1);
          assert false;
        }
      }
    }
  }

  ghost predicate NfAlwaysLeq(a: Nf, b: Nf) {
    forall env: Assignment :: NfValue(a, env).Leq(NfValue(b, env))
  }

  ghost predicate AlwaysLeq(a: Level, b: Level) {
    forall env: Assignment :: Value(a, env).Leq(Value(b, env))
  }

  ghost predicate AlwaysEqual(a: Level, b: Level) {
    forall env: Assignment :: Value(a, env) == Value(b, env)
  }

  /** Order is decided exactly. */
  lemma OrderDecided(a: Nf, b: Nf)
    requires WellFormed(a) && WellFormed(b)
    ensures LeqNf(a, b) <==> NfAlwaysLeq(a, b)
  {
    if LeqNf(a, b) {
      forall env: Assignment ensures NfValue(a, env).Leq(NfValue(b, env)) { LeqSound(a, b, env); }
    }
    if NfAlwaysLeq(a, b) { LeqComplete(a, b); }
  }

  lemma {:induction false} SortedCanonical(a: seq<Term>, b: seq<Term>)
    requires Sorted(a) && Sorted(b) && Dominates(b, a) && Dominates(a, b)
    ensures a == b
    decreases |a|
  {
    if a == [] || b == [] {
      assert a == [] || HasAtLeast(b, a[0]);
      assert b == [] || HasAtLeast(a, b[0]);
    } else {
      HeadHas(a, b);
      HeadHas(b, a);
      DominatesTail(a, b);
      DominatesTail(b, a);
      SortedCanonical(a[1..], b[1..]);
      assert a == [a[0]] + a[1..] && b == [b[0]] + b[1..];
    }
  }

  lemma DominatesTail(a: seq<Term>, b: seq<Term>)
    requires Sorted(a) && Sorted(b) && a != [] && b != [] && a[0].key == b[0].key && Dominates(b, a)
    ensures Dominates(b[1..], a[1..])
  {
    forall i | 0 <= i < |a[1..]| ensures HasAtLeast(b[1..], a[1..][i]) {
      assert HasAtLeast(b, a[i + 1]);
      TailHas(a, b, i);
    }
  }

  lemma HeadHas(a: seq<Term>, b: seq<Term>)
    requires Sorted(b) && a != [] && b != [] && Dominates(b, a)
    ensures b[0].key <= a[0].key
    ensures b[0].key == a[0].key ==> a[0].offset <= b[0].offset
  {
    assert HasAtLeast(b, a[0]);
    var j :| 0 <= j < |b| && b[j].key == a[0].key && a[0].offset <= b[j].offset;
    assert j == 0 || b[0].key < b[j].key;
  }

  lemma TailHas(a: seq<Term>, b: seq<Term>, i: nat)
    requires Sorted(a) && Sorted(b) && i + 1 < |a| && b != [] && a[0].key == b[0].key
    requires HasAtLeast(b, a[i + 1])
    ensures HasAtLeast(b[1..], a[1..][i])
  {
    var j :| 0 <= j < |b| && b[j].key == a[i + 1].key && a[i + 1].offset <= b[j].offset;
    assert a[0].key < a[i + 1].key;
    assert b[1..][j - 1] == b[j];
  }

  /** Equality is decided exactly: two levels agree everywhere when their normal
      forms are identical. */
  lemma EqualityDecided(a: Nf, b: Nf)
    requires WellFormed(a) && WellFormed(b)
    ensures a == b <==> forall env: Assignment :: NfValue(a, env) == NfValue(b, env)
  {
    if forall env: Assignment :: NfValue(a, env) == NfValue(b, env) {
      OrderDecided(a, b);
      OrderDecided(b, a);
      ZeroValue(a);
      ZeroValue(b);
      if a.tier == 0 { SortedCanonical(a.terms, b.terms); }
    }
  }

  // ---- Canonical syntax ---------------------------------------------------------------

  function TopOffset(terms: seq<Term>): nat {
    if terms == [] then 0 else Larger(TopOffset(terms[..|terms| - 1]), terms[|terms| - 1].offset)
  }

  function Part(t: Term): Level {
    if t.offset == 0 then Var(t.key) else Succ(t.offset, Var(t.key))
  }

  /** The parts nested to the right in front of what is there already. */
  function Nested(terms: seq<Term>, last: Option<Level>): Option<Level> {
    if terms == [] then last
    else
      var rest := Nested(terms[1..], last);
      if rest.None? then Some(Part(terms[0])) else Some(Max(Part(terms[0]), rest.value))
  }

  function NeedsConstant(nf: Nf): bool {
    nf.terms == [] || nf.constant > TopOffset(nf.terms)
  }

  function Built(nf: Nf): Level {
    if nf.tier > 0 then Const(nf.tier, nf.constant)
    else
      var last := if NeedsConstant(nf) then Some(Const(0, nf.constant)) else None;
      var all := Nested(nf.terms, last);
      if all.Some? then all.value else Const(0, nf.constant)
  }

  lemma {:induction false} TopOffsetBound(terms: seq<Term>, bound: nat)
    ensures TopOffset(terms) <= bound <==> forall i :: 0 <= i < |terms| ==> terms[i].offset <= bound
  {
    if terms != [] {
      TopOffsetBound(terms[..|terms| - 1], bound);
      assert terms == terms[..|terms| - 1] + [terms[|terms| - 1]];
    }
  }

  lemma {:induction false} NestedNormal(terms: seq<Term>, last: Option<Level>, constant: nat)
    requires Sorted(terms) && constant <= LEVEL_MAX
    requires forall i :: 0 <= i < |terms| ==> terms[i].offset <= LEVEL_MAX
    requires last.Some? ==> last.value == Const(0, constant)
    requires last.None? ==> terms != []
    ensures Nested(terms, last).Some?
    ensures Normalize(Nested(terms, last).value)
            == Some(Nf(0, if last.Some? then Larger(constant, TopOffset(terms)) else TopOffset(terms), terms))
  {
    if terms != [] {
      var part := Nf(0, terms[0].offset, [terms[0]]);
      assert Normalize(Part(terms[0])) == Some(part) by {
        assert Raised([Term(terms[0].key, 0)], terms[0].offset) == [terms[0]];
      }
      TopOffsetHead(terms);
      if last.Some? || |terms| > 1 {
        NestedNormal(terms[1..], last, constant);
        MergeHead(terms);
      } else {
        assert terms == [terms[0]];
      }
    }
  }

  lemma TopOffsetHead(terms: seq<Term>)
    requires terms != []
    ensures TopOffset(terms) == Larger(terms[0].offset, TopOffset(terms[1..]))
  {
    TopOffsetBound(terms, TopOffset(terms));
    TopOffsetBound(terms[1..], TopOffset(terms));
    TopOffsetBound(terms[1..], TopOffset(terms[1..]));
    forall i | 0 <= i < |terms| ensures terms[i].offset <= Larger(terms[0].offset, TopOffset(terms[1..])) {
      if i > 0 { assert terms[i] == terms[1..][i - 1]; }
    }
    TopOffsetBound(terms, Larger(terms[0].offset, TopOffset(terms[1..])));
  }

  lemma MergeHead(terms: seq<Term>)
    requires Sorted(terms) && terms != []
    ensures Merge([terms[0]], terms[1..]) == terms
  {
    if |terms| > 1 { assert Merge([], terms[1..]) == terms[1..]; }
    assert terms == [terms[0]] + terms[1..];
  }

  /** Building a normal form and normalizing it gives it back. */
  lemma BuildThenNormalize(nf: Nf)
    requires WellFormed(nf)
    ensures Normalize(Built(nf)) == Some(nf)
  {
    TopOffsetBound(nf.terms, nf.constant);
    if nf.tier == 0 {
      NestedNormal(nf.terms, if NeedsConstant(nf) then Some(Const(0, nf.constant)) else None, nf.constant);
    }
  }

  /** Canonical syntax is identical exactly for semantically equal levels. */
  lemma CanonicalSyntax(a: Level, b: Level)
    requires InBounds(a) && InBounds(b)
    ensures NormalizeSome(a) && NormalizeSome(b)
    ensures Built(Normalize(a).value) == Built(Normalize(b).value) <==> AlwaysEqual(a, b)
  {
    LevelsDecided(a, b);
    BuildThenNormalize(Normalize(a).value);
    BuildThenNormalize(Normalize(b).value);
  }

  predicate NormalizeSome(l: Level) { Normalize(l).Some? && WellFormed(Normalize(l).value) }

  /** The decisions on normal forms are the semantic relations on levels. */
  lemma LevelsDecided(a: Level, b: Level)
    requires InBounds(a) && InBounds(b)
    ensures NormalizeSome(a) && NormalizeSome(b)
    ensures Normalize(a) == Normalize(b) <==> AlwaysEqual(a, b)
    ensures LeqNf(Normalize(a).value, Normalize(b).value) <==> AlwaysLeq(a, b)
  {
    ValuesKept(a);
    ValuesKept(b);
    LevelsEqual(a, b, Normalize(a).value, Normalize(b).value);
    LevelsOrdered(a, b, Normalize(a).value, Normalize(b).value);
  }

  lemma LevelsEqual(a: Level, b: Level, na: Nf, nb: Nf)
    requires WellFormed(na) && WellFormed(nb)
    requires forall env: Assignment :: NfValue(na, env) == Value(a, env)
    requires forall env: Assignment :: NfValue(nb, env) == Value(b, env)
    ensures na == nb <==> AlwaysEqual(a, b)
  {
    EqualityDecided(na, nb);
    if na == nb {
      forall env: Assignment ensures Value(a, env) == Value(b, env) { assert NfValue(na, env) == Value(a, env); }
    } else {
      var env: Assignment :| NfValue(na, env) != NfValue(nb, env);
      assert Value(a, env) != Value(b, env);
    }
  }

  lemma LevelsOrdered(a: Level, b: Level, na: Nf, nb: Nf)
    requires WellFormed(na) && WellFormed(nb)
    requires forall env: Assignment :: NfValue(na, env) == Value(a, env)
    requires forall env: Assignment :: NfValue(nb, env) == Value(b, env)
    ensures LeqNf(na, nb) <==> AlwaysLeq(a, b)
  {
    OrderDecided(na, nb);
    if LeqNf(na, nb) {
      forall env: Assignment ensures Value(a, env).Leq(Value(b, env)) {
        LeqSound(na, nb, env);
        assert NfValue(na, env) == Value(a, env) && NfValue(nb, env) == Value(b, env);
      }
    }
    if AlwaysLeq(a, b) {
      forall env: Assignment ensures NfValue(na, env).Leq(NfValue(nb, env)) { assert Value(a, env).Leq(Value(b, env)); }
    }
  }

  lemma ValuesKept(l: Level)
    requires InBounds(l)
    ensures NormalizeSome(l)
    ensures forall env: Assignment :: NfValue(Normalize(l).value, env) == Value(l, env)
  {
    NormalizeSound(l, Zeros());
    forall env: Assignment ensures NfValue(Normalize(l).value, env) == Value(l, env) {
      NormalizeSound(l, env);
    }
  }

  // ---- The limit ---------------------------------------------------------------------

  predicate Occurs(x: nat, terms: seq<Term>) {
    exists i :: 0 <= i < |terms| && terms[i].key == x
  }

  function LimitNf(x: nat, nf: Nf): Level {
    if Occurs(x, nf.terms) then Const(1, 0) else Built(nf)
  }

  function With(env: Assignment, x: nat, n: nat): Assignment { y => if y == x then n else env(y) }

  /** The least upper bound of the level's values as `x` ranges over the naturals. */
  ghost predicate IsSupremum(sup: Ordinal, l: Level, x: nat, env: Assignment) {
    && (forall n: nat :: Value(l, With(env, x, n)).Leq(sup))
    && (forall o: Ordinal :: (forall n: nat :: Value(l, With(env, x, n)).Leq(o)) ==> sup.Leq(o))
  }

  lemma {:induction false} UnaffectedHighest(constant: nat, terms: seq<Term>, x: nat, env: Assignment, n: nat)
    requires !Occurs(x, terms)
    ensures Highest(constant, terms, With(env, x, n)) == Highest(constant, terms, env)
  {
    if terms != [] {
      assert terms[0].key != x;
      forall i | 0 <= i < |terms[1..]| ensures terms[1..][i].key != x { assert terms[1..][i] == terms[i + 1]; }
      UnaffectedHighest(constant, terms[1..], x, env, n);
    }
  }

  /** The limit of a level over `x` is its supremum, under every assignment of the
      other variables. */
  lemma LimitIsSupremum(l: Level, x: nat, env: Assignment)
    requires InBounds(l)
    ensures NormalizeSome(l)
    ensures IsSupremum(Value(LimitNf(x, Normalize(l).value), env), l, x, env)
  {
    ValuesKept(l);
    var nf := Normalize(l).value;
    if Occurs(x, nf.terms) {
      var i :| 0 <= i < |nf.terms| && nf.terms[i].key == x;
      forall o: Ordinal | forall n: nat :: Value(l, With(env, x, n)).Leq(o) ensures Ordinal(1, 0).Leq(o) {
        var e := With(env, x, o.finite + 1);
        HighestBound(nf.constant, nf.terms, e, Highest(nf.constant, nf.terms, e));
        assert Value(l, e).Leq(o);
      }
    } else {
      BuildThenNormalize(nf);
      NormalizeSound(Built(nf), env);
      forall n: nat ensures Value(l, With(env, x, n)) == NfValue(nf, env) {
        UnaffectedHighest(nf.constant, nf.terms, x, env, n);
      }
      forall o: Ordinal | forall n: nat :: Value(l, With(env, x, n)).Leq(o) ensures NfValue(nf, env).Leq(o) {
        assert Value(l, With(env, x, 0)).Leq(o);
      }
    }
  }
}
