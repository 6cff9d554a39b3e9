/** interval.c: De Morgan reversal and substitution of interval expressions. The two
    loops, which meet reversed clauses and rebuild clauses around a dimension, have
    the same form in faces.c, so they take the sort. */
module Intervals {
  import opened Lattice
  import opened Formulas

  // ---- Reversed clauses ---------------------------------------------------------

  /** The reversed generators of a clause, by dimension from `d` up. */
  function DualList(c: DimClause, d: nat): seq<DimClause>
    requires d <= DIMENSIONS
    decreases DIMENSIONS - d
  {
    if d == DIMENSIONS then [] else DualHere(c, d) + DualList(c, d + 1)
  }

  function DualHere(c: DimClause, d: Dim): seq<DimClause> {
    if d in c.positive then [Clause({}, {d})] + DualNegative(c, d) else DualNegative(c, d)
  }

  function DualNegative(c: DimClause, d: Dim): seq<DimClause> {
    if d in c.negative then [Clause({d}, {})] else []
  }

  predicate IsReversed(x: DimClause, c: DimClause, e: Dim) {
    (e in c.positive && x == Clause({}, {e})) || (e in c.negative && x == Clause({e}, {}))
  }

  lemma {:induction false} DualListMembers(c: DimClause, d: nat, x: DimClause)
    requires d <= DIMENSIONS
    ensures x in DualList(c, d) <==> (exists e: Dim :: e >= d && IsReversed(x, c, e))
    decreases DIMENSIONS - d
  {
    if d < DIMENSIONS {
      DualListMembers(c, d + 1, x);
      var here: Dim := d;
      if IsReversed(x, c, here) { assert x in DualList(c, d); }
      if e: Dim :| e >= d && IsReversed(x, c, e) { assert e == here || e >= d + 1; }
    }
  }

  lemma DualListIsDual(c: DimClause)
    ensures SetOf(DualList(c, 0)) == DualLiterals(c)
  {
    forall x ensures x in DualList(c, 0) <==> x in DualLiterals(c) {
      DualListMembers(c, 0, x);
      if e: Dim :| e >= 0 && IsReversed(x, c, e) { assert e in c.positive || e in c.negative; }
      if e: Dim :| e in c.positive && x == Clause({}, {e}) { assert IsReversed(x, c, e); }
      if e: Dim :| e in c.negative && x == Clause({e}, {}) { assert IsReversed(x, c, e); }
    }
  }

  /** Meets `acc` with the reversed generators of each clause. */
  function DualRun(sort: Sort, list: seq<DimClause>, acc: seq<DimClause>, work: nat): Outcome
    decreases |list|
  {
    if list == [] then Done(acc, work) else
    match DualStep(sort, list[0], acc, work)
    case Limit => Limit
    case Done(next, spent) => DualRun(sort, list[1..], next, spent)
  }

  function DualStep(sort: Sort, c: DimClause, acc: seq<DimClause>, work: nat): Outcome {
    match InsertAll(sort, [], DualList(c, 0), work)
    case Limit => Limit
    case Done(sum, spent) => MeetRun(sort, acc, sum, spent)
  }

  lemma DualStepHolds(sort: Sort, c: DimClause, acc: seq<DimClause>, work: nat, v: Point<Dim>)
    requires Admits(sort, v)
    ensures match DualStep(sort, c, acc, work)
            case Limit => true
            case Done(r, _) =>
              && ListNormal(sort, r)
              && (Holds(SetOf(r), v) <==> Holds(SetOf(acc), v) && !ClauseHolds(c, Opposite(v)))
  {
    var sum := InsertAll(sort, [], DualList(c, 0), work);
    if sum.Done? {
      InsertAllMeaning(sort, [], DualList(c, 0), work);
      DualListIsDual(c);
      assert SetOf([]) + DualLiterals(c) == DualLiterals(c);
      ReduceHolds(sort, DualLiterals(c), v);
      DualLiteralsHold(c, v);
      MeetMeaning(sort, acc, sum.list, sum.work);
      MeetHolds(sort, SetOf(acc), SetOf(sum.list), v);
    }
  }

  lemma {:induction false} DualRunHolds(sort: Sort, list: seq<DimClause>, acc: seq<DimClause>, work: nat, v: Point<Dim>)
    requires ListNormal(sort, acc) && Admits(sort, v)
    ensures match DualRun(sort, list, acc, work)
            case Limit => true
            case Done(r, _) =>
              && ListNormal(sort, r)
              && (Holds(SetOf(r), v) <==> Holds(SetOf(acc), v) && !Holds(SetOf(list), Opposite(v)))
    decreases |list|
  {
    if list != [] {
      DualStepHolds(sort, list[0], acc, work, v);
      var next := DualStep(sort, list[0], acc, work);
      if next.Done? {
        DualRunHolds(sort, list[1..], next.list, next.work, v);
        SplitHolds(list, Opposite(v));
      }
    }
  }

  lemma SplitHolds(list: seq<DimClause>, v: Point<Dim>)
    requires list != []
    ensures Holds(SetOf(list), v) <==> ClauseHolds(list[0], v) || Holds(SetOf(list[1..]), v)
  {
    assert SetOf(list) == {list[0]} + SetOf(list[1..]);
    UnionHolds({list[0]}, SetOf(list[1..]), v);
    assert list[0] in {list[0]};
  }

  /** The loop computes the dual: reversal for the interval, the face r=0 for faces. */
  lemma DualRunMeaning(sort: Sort, list: seq<DimClause>, work: nat)
    ensures match DualRun(sort, list, [Top()], work)
            case Limit => true
            case Done(r, _) => ListNormal(sort, r) && SetOf(r) == Dual(sort, SetOf(list))
  {
    var run := DualRun(sort, list, [Top()], work);
    if run.Done? {
      DualRunHolds(sort, list, [Top()], work, Generic(Top()));
      ListNormalIsNormal(sort, run.list);
      DualNormal(sort, SetOf(list));
      forall v: Point<Dim> | Admits(sort, v) ensures Holds(SetOf(run.list), v) <==> Holds(Dual(sort, SetOf(list)), v) {
        DualRunHolds(sort, list, [Top()], work, v);
        DualHolds(sort, SetOf(list), v);
        assert Top() in SetOf([Top()]) && ClauseHolds(Top(), v);
      }
      Canonical(sort, SetOf(run.list), Dual(sort, SetOf(list)));
    }
  }

  method InsertHere(c: DimClause, d: Dim, sum: Formula, work: nat) returns (status: Status, spent: nat)
    requires sum.Valid()
    modifies sum`length, sum`clauses, sum.clauses
    ensures sum.Valid() && (sum.clauses == old(sum.clauses) || fresh(sum.clauses))
    ensures status == Ok || status == LimitExceeded
    ensures InsertAll(sum.sort, old(sum.List()), DualHere(c, d), work) == if status == Ok then Done(sum.List(), spent)
            else Limit
  {
    status, spent := Ok, work;
    if d in c.positive {
      InsertAllConcat(sum.sort, sum.List(), [Clause({}, {d})], DualNegative(c, d), work);
      status, spent := sum.Insert(Clause({}, {d}), spent);
    }
    if status == Ok && d in c.negative { status, spent := sum.Insert(Clause({d}, {}), spent); }
  }

  method DualSum(c: DimClause, sum: Formula, work: nat) returns (status: Status, spent: nat)
    requires sum.Valid() && sum.List() == []
    modifies sum`length, sum`clauses, sum.clauses
    ensures sum.Valid() && (sum.clauses == old(sum.clauses) || fresh(sum.clauses))
    ensures status == Ok || status == LimitExceeded
    ensures InsertAll(sum.sort, [], DualList(c, 0), work) == if status == Ok then Done(sum.List(), spent) else Limit
  {
    status, spent := Ok, work;
    ghost var target := InsertAll(sum.sort, [], DualList(c, 0), work);
    var d := 0;
    while d < DIMENSIONS
      invariant d <= DIMENSIONS && sum.Valid() && (sum.clauses == old(sum.clauses) || fresh(sum.clauses))
      invariant target == InsertAll(sum.sort, sum.List(), DualList(c, d), spent)
    {
      InsertAllConcat(sum.sort, sum.List(), DualHere(c, d), DualList(c, d + 1), spent);
      status, spent := InsertHere(c, d, sum, spent);
      if status != Ok { return; }
      d := d + 1;
    }
    status := Ok;
  }

  method DualStepInto(candidate: Formula, c: DimClause, work: nat) returns (status: Status, spent: nat)
    requires candidate.Valid()
    modifies candidate
    ensures candidate.Valid() && candidate.sort == old(candidate.sort)
    ensures status == Ok || status == LimitExceeded
    ensures candidate.clauses == old(candidate.clauses) || fresh(candidate.clauses)
    ensures DualStep(candidate.sort, c, old(candidate.List()), work) == if status
            == Ok then Done(candidate.List(), spent) else Limit
  {
    var sum := new Formula(candidate.sort);
    status, spent := DualSum(c, sum, work);
    if status == Ok { status, spent := candidate.Meet(candidate, sum, spent); }
  }

  method DualInto(candidate: Formula, a: Formula, work: nat) returns (status: Status, spent: nat)
    requires candidate.Valid() && a.Valid() && a != candidate && candidate.List() == [Top()]
    modifies candidate
    ensures candidate.Valid() && candidate.sort == old(candidate.sort)
    ensures status == Ok || status == LimitExceeded
    ensures candidate.clauses == old(candidate.clauses) || fresh(candidate.clauses)
    ensures DualRun(candidate.sort, a.List(), [Top()], work) == if status == Ok then Done(candidate.List(), spent)
            else Limit
  {
    status, spent := Ok, work;
    ghost var list := a.List();
    var i := 0;
    while i < a.length
      invariant i <= a.length && a.Valid() && a.List() == list
      invariant candidate.Valid() && candidate.sort == old(candidate.sort)
      invariant candidate.clauses == old(candidate.clauses) || fresh(candidate.clauses)
      invariant DualRun(candidate.sort, list, [Top()], work)
                == DualRun(candidate.sort, list[i..], candidate.List(), spent)
    {
      assert list[i..][1..] == list[i + 1..];
      status, spent := DualStepInto(candidate, a.clauses[i], spent);
      if status != Ok { return; }
      i := i + 1;
    }
    status := Ok;
  }

  // ---- Reversal -----------------------------------------------------------------------

  /** 1-r, into `out`. On a limit `out`, which may be `a`, is unchanged. */
  method ReverseWork(out: Formula, a: Formula, work: nat) returns (status: Status, spent: nat)
    requires out.Valid() && a.Valid()
    modifies out
    ensures out.Valid() && out.sort == old(out.sort)
    ensures status == BadInput <==> out.sort != Interval || old(a.sort) != Interval
    ensures status != Ok ==> unchanged(out)
    ensures status == Ok ==> fresh(out.clauses)
    ensures status != BadInput ==>
              DualRun(Interval, old(a.List()), [Top()], work) == if status == Ok then Done(out.List(), spent) else Limit
  {
    spent := work;
    if out.sort != Interval || a.sort != Interval { return BadInput, spent; }
    var candidate := new Formula(Interval);
    candidate.One();
    status, spent := DualInto(candidate, a, spent);
    if status == Ok { out.Publish(candidate); }
  }

  method Reverse(out: Formula, a: Formula) returns (status: Status)
    requires out.Valid() && a.Valid()
    modifies out
    ensures out.Valid() && out.sort == old(out.sort)
    ensures status == BadInput <==> out.sort != Interval || old(a.sort) != Interval
    ensures status != Ok ==> unchanged(out)
    ensures status == LimitExceeded <==> status != BadInput && DualRun(Interval, old(a.List()), [Top()], 0) == Limit
    ensures status == Ok ==>
              ListNormal(Interval, out.List()) && SetOf(out.List()) == Dual(Interval, old(SetOf(a.List())))
  {
    DualRunMeaning(Interval, a.List(), 0);
    var spent;
    status, spent := ReverseWork(out, a, 0);
  }

  // ---- Substitution ----------------------------------------------------------------

  function ReplaceClauseRun(sort: Sort, c: DimClause, d: Dim, one: seq<DimClause>, zero: seq<DimClause>,
                            work: nat): Outcome {
    match InsertRun(sort, [], Without(c, d), work)
    case Limit => Limit
    case Done(rest, w0) =>
      match if d in c.positive then MeetRun(sort, rest, one, w0) else Done(rest, w0)
      case Limit => Limit
      case Done(first, w1) => if d in c.negative then MeetRun(sort, first, zero, w1) else Done(first, w1)
  }

  function ReplaceRun(sort: Sort, list: seq<DimClause>, d: Dim, one: seq<DimClause>, zero: seq<DimClause>,
                      acc: seq<DimClause>, work: nat): Outcome
    decreases |list|
  {
    if list == [] then Done(acc, work) else
    match ReplaceStep(sort, list[0], d, one, zero, acc, work)
    case Limit => Limit
    case Done(next, spent) => ReplaceRun(sort, list[1..], d, one, zero, next, spent)
  }

  function ReplaceStep(sort: Sort, c: DimClause, d: Dim, one: seq<DimClause>, zero: seq<DimClause>,
                       acc: seq<DimClause>, work: nat): Outcome {
    match ReplaceClauseRun(sort, c, d, one, zero, work)
    case Limit => Limit
    case Done(product, spent) => JoinRun(sort, acc, product, spent)
  }

  predicate NeedsOne(list: seq<DimClause>, d: Dim) { exists i :: 0 <= i < |list| && d in list[i].positive }

  predicate NeedsZero(list: seq<DimClause>, d: Dim) { exists i :: 0 <= i < |list| && d in list[i].negative }

  /** Substitution given what `d` and its reversal become, each computed only when needed. */
  function IntervalSubstituteRun(list: seq<DimClause>, d: Dim, value: seq<DimClause>): Outcome {
    if !NeedsOne(list, d) && !NeedsZero(list, d) then CopyRun(Interval, list) else
    match if NeedsZero(list, d) then DualRun(Interval, value, [Top()], 0) else Done([], 0)
    case Limit => Limit
    case Done(reversed, work) => ReplaceRun(Interval, list, d, value, reversed, [], work)
  }

  lemma ReplaceClauseRunMeaning(sort: Sort, c: DimClause, d: Dim, one: seq<DimClause>, zero: seq<DimClause>, work: nat)
    ensures match ReplaceClauseRun(sort, c, d, one, zero, work)
            case Limit => true
            case Done(r, _) => ListNormal(sort, r) && SetOf(r) == ReplacedClause(sort, c, d, SetOf(one), SetOf(zero))
  {
    InsertMeaning(sort, [], Without(c, d), work);
    assert SetOf([]) + {Without(c, d)} == {Without(c, d)};
    var rest := InsertRun(sort, [], Without(c, d), work);
    if rest.Done? {
      MeetMeaning(sort, rest.list, one, rest.work);
      var first := if d in c.positive then MeetRun(sort, rest.list, one, rest.work) else rest;
      if first.Done? { MeetMeaning(sort, first.list, zero, first.work); }
    }
  }

  lemma ReplaceStepHolds(sort: Sort, c: DimClause, d: Dim, one: seq<DimClause>, zero: seq<DimClause>,
                         acc: seq<DimClause>, work: nat, v: Point<Dim>)
    requires Admits(sort, v)
    ensures match ReplaceStep(sort, c, d, one, zero, acc, work)
            case Limit => true
            case Done(r, _) =>
              && ListNormal(sort, r)
              && (Holds(SetOf(r), v) <==>
                  Holds(SetOf(acc), v) || ClauseHolds(c, At(v, d, Holds(SetOf(one), v), Holds(SetOf(zero), v))))
  {
    var product := ReplaceClauseRun(sort, c, d, one, zero, work);
    if product.Done? {
      ReplaceClauseRunMeaning(sort, c, d, one, zero, work);
      ReplacedClauseHolds(sort, c, d, SetOf(one), SetOf(zero), v);
      JoinMeaning(sort, acc, product.list, product.work);
      JoinHolds(sort, SetOf(acc), SetOf(product.list), v);
    }
  }

  lemma {:induction false} ReplaceRunHolds(sort: Sort, list: seq<DimClause>, d: Dim, one: seq<DimClause>,
                                           zero: seq<DimClause>,
                                           acc: seq<DimClause>, work: nat, v: Point<Dim>)
    requires ListNormal(sort, acc) && Admits(sort, v)
    ensures match ReplaceRun(sort, list, d, one, zero, acc, work)
            case Limit => true
            case Done(r, _) =>
              && ListNormal(sort, r)
              && (Holds(SetOf(r), v) <==>
                  Holds(SetOf(acc), v) || Holds(SetOf(list), At(v, d, Holds(SetOf(one), v), Holds(SetOf(zero), v))))
    decreases |list|
  {
    if list != [] {
      ReplaceStepHolds(sort, list[0], d, one, zero, acc, work, v);
      var next := ReplaceStep(sort, list[0], d, one, zero, acc, work);
      if next.Done? {
        ReplaceRunHolds(sort, list[1..], d, one, zero, next.list, next.work, v);
        SplitHolds(list, At(v, d, Holds(SetOf(one), v), Holds(SetOf(zero), v)));
      }
    }
  }

  /** A generator that no clause needs may be given any value. */
  lemma UnneededHolds(list: seq<DimClause>, d: Dim, v: Point<Dim>, one: bool, zero: bool, one': bool, zero': bool)
    requires NeedsOne(list, d) ==> one == one'
    requires NeedsZero(list, d) ==> zero == zero'
    ensures Holds(SetOf(list), At(v, d, one, zero)) <==> Holds(SetOf(list), At(v, d, one', zero'))
  {
    forall c | c in SetOf(list) ensures ClauseHolds(c, At(v, d, one, zero)) <==> ClauseHolds(c, At(v, d, one', zero')) {
      var i :| 0 <= i < |list| && list[i] == c;
    }
  }

  lemma UnneededIsUnmentioned(list: seq<DimClause>, d: Dim)
    ensures !NeedsOne(list, d) && !NeedsZero(list, d) <==> !Mentions(SetOf(list), d)
  {
    if Mentions(SetOf(list), d) {
      var c :| c in SetOf(list) && (d in c.positive || d in c.negative);
      var i :| 0 <= i < |list| && list[i] == c;
    }
    assert forall i :: 0 <= i < |list| ==> list[i] in SetOf(list);
  }

  /** Interval substitution computes the homomorphism of the lattice. */
  lemma IntervalSubstituteMeaning(list: seq<DimClause>, d: Dim, value: seq<DimClause>)
    requires ListNormal(Interval, list)
    ensures match IntervalSubstituteRun(list, d, value)
            case Limit => true
            case Done(r, _) => ListNormal(Interval, r) && SetOf(r) == SubstituteInterval(SetOf(list), d, SetOf(value))
  {
    UnneededIsUnmentioned(list, d);
    ListNormalIsNormal(Interval, list);
    var run := IntervalSubstituteRun(list, d, value);
    if !NeedsOne(list, d) && !NeedsZero(list, d) {
      CopyMeaning(Interval, list);
      ReduceFixed(Interval, SetOf(list));
      SubstituteUnmentioned(Interval, SetOf(list), d, SetOf(value));
    } else if run.Done? {
      DualRunMeaning(Interval, value, 0);
      var reversed := if NeedsZero(list, d) then DualRun(Interval, value, [Top()], 0) else Done([], 0);
      var target := SubstituteInterval(SetOf(list), d, SetOf(value));
      ReplaceRunHolds(Interval, list, d, value, reversed.list, [], reversed.work, Generic(Top()));
      ListNormalIsNormal(Interval, run.list);
      SubstitutedHolds(Interval, SetOf(list), d, SetOf(value), Generic(Top()));
      forall v: Point<Dim> ensures Holds(SetOf(run.list), v) <==> Holds(target, v) {
        ReplaceRunHolds(Interval, list, d, value, reversed.list, [], reversed.work, v);
        SubstitutedHolds(Interval, SetOf(list), d, SetOf(value), v);
        DualHolds(Interval, SetOf(value), v);
        UnneededHolds(list, d, v, Holds(SetOf(value), v), Holds(SetOf(reversed.list), v),
                      Holds(SetOf(value), v), !Holds(SetOf(value), Opposite(v)));
      }
      Canonical(Interval, SetOf(run.list), target);
    }
  }

  /** Which generators of `d` occur. */
  method Needs(a: Formula, d: Dim) returns (one: bool, zero: bool)
    requires a.Valid()
    ensures one == NeedsOne(a.List(), d) && zero == NeedsZero(a.List(), d)
  {
    one, zero := false, false;
    for i := 0 to a.length
      invariant one == NeedsOne(a.List()[..i], d) && zero == NeedsZero(a.List()[..i], d)
    {
      ghost var seen, more := a.List()[..i], a.List()[..i + 1];
      assert more == seen + [a.clauses[i]];
      assert more[i] == a.clauses[i] && forall j :: 0 <= j < i ==> more[j] == seen[j];
      one := one || d in a.clauses[i].positive;
      zero := zero || d in a.clauses[i].negative;
    }
    assert a.List()[..a.length] == a.List();
  }

  method ReplaceClause(product: Formula, c: DimClause, d: Dim, one: Formula, zero: Formula, work: nat)
    returns (status: Status, spent: nat)
    requires product.Valid() && one.Valid() && zero.Valid() && product.List() == []
    requires product !in {one, zero} && product.clauses != one.clauses && product.clauses != zero.clauses
    requires product.sort == one.sort == zero.sort
    modifies product, product.clauses
    ensures product.Valid() && product.sort == old(product.sort)
    ensures product.clauses == old(product.clauses) || fresh(product.clauses)
    ensures status == Ok || status == LimitExceeded
    ensures ReplaceClauseRun(product.sort, c, d, one.List(), zero.List(), work)
            == if status == Ok then Done(product.List(), spent) else Limit
  {
    status, spent := product.Insert(Without(c, d), work);
    if status == Ok && d in c.positive { status, spent := product.Meet(product, one, spent); }
    if status == Ok && d in c.negative { status, spent := product.Meet(product, zero, spent); }
  }

  method ReplaceStepInto(candidate: Formula, c: DimClause, d: Dim, one: Formula, zero: Formula, work: nat)
    returns (status: Status, spent: nat)
    requires candidate.Valid() && one.Valid() && zero.Valid()
    requires candidate !in {one, zero} && candidate.sort == one.sort == zero.sort
    modifies candidate
    ensures candidate.Valid() && candidate.sort == old(candidate.sort)
    ensures candidate.clauses == old(candidate.clauses) || fresh(candidate.clauses)
    ensures status == Ok || status == LimitExceeded
    ensures ReplaceStep(candidate.sort, c, d, one.List(), zero.List(), old(candidate.List()), work)
            == if status == Ok then Done(candidate.List(), spent) else Limit
  {
    var product := new Formula(candidate.sort);
    status, spent := ReplaceClause(product, c, d, one, zero, work);
    if status == Ok { status, spent := candidate.Join(candidate, product, spent); }
  }

  method ReplaceInto(candidate: Formula, a: Formula, d: Dim, one: Formula, zero: Formula, work: nat)
    returns (status: Status, spent: nat)
    requires candidate.Valid() && a.Valid() && one.Valid() && zero.Valid() && candidate.List() == []
    requires candidate !in {a, one, zero} && candidate.sort == one.sort == zero.sort
    modifies candidate
    ensures candidate.Valid() && candidate.sort == old(candidate.sort)
    ensures candidate.clauses == old(candidate.clauses) || fresh(candidate.clauses)
    ensures status == Ok || status == LimitExceeded
    ensures ReplaceRun(candidate.sort, a.List(), d, one.List(), zero.List(), [], work)
            == if status == Ok then Done(candidate.List(), spent) else Limit
  {
    status, spent := Ok, work;
    ghost var sort, list, atOne, atZero := candidate.sort, a.List(), one.List(), zero.List();
    var i := 0;
    while i < a.length
      invariant i <= a.length && candidate.Valid() && candidate.sort == sort
      invariant candidate.clauses == old(candidate.clauses) || fresh(candidate.clauses)
      invariant a.List() == list && one.List() == atOne && zero.List() == atZero
      invariant ReplaceRun(sort, list, d, atOne, atZero, [], work)
             == ReplaceRun(sort, list[i..], d, atOne, atZero, candidate.List(), spent)
    {
      assert list[i..][1..] == list[i + 1..];
      status, spent := ReplaceStepInto(candidate, a.clauses[i], d, one, zero, spent);
      if status != Ok { return; }
      i := i + 1;
    }
    status := Ok;
  }

  /** a[d := value], into `out`. */
  method IntervalSubstitute(out: Formula, a: Formula, dimension: nat, value: Formula) returns (status: Status)
    requires out.Valid() && a.Valid() && value.Valid()
    modifies out
    ensures out.Valid() && out.sort == old(out.sort)
    ensures status == BadInput <==>
              out.sort != Interval || old(a.sort) != Interval || old(value.sort) != Interval || dimension >= DIMENSIONS
    ensures status != Ok ==> unchanged(out)
    ensures status != BadInput ==>
              match IntervalSubstituteRun(old(a.List()), dimension, old(value.List()))
              case Done(list, _) => status == Ok && out.List() == list
              case Limit => status == LimitExceeded
  {
    if out.sort != Interval || a.sort != Interval || value.sort != Interval || dimension >= DIMENSIONS {
      return BadInput;
    }
    var d: Dim := dimension;
    var one, zero := Needs(a, d);
    if !one && !zero { status := out.Copy(a); return; }
    var spent := 0;
    var reversed := new Formula(Interval);
    if zero {
      status, spent := ReverseWork(reversed, value, spent);
      if status != Ok { return; }
    }
    var candidate := new Formula(Interval);
    status, spent := ReplaceInto(candidate, a, d, value, reversed, spent);
    if status == Ok { out.Publish(candidate); }
  }

  /** In terms of the clause lists that the kernel keeps: reversing twice, and
      reversing before or after a substitution, give equal formulas. */
  lemma ReverseLaws(a: seq<DimClause>, d: Dim, value: seq<DimClause>)
    requires ListNormal(Interval, a)
    ensures var r := DualRun(Interval, a, [Top()], 0);
            r.Done? ==>
              var rr := DualRun(Interval, r.list, [Top()], 0);
              rr.Done? ==> SameClauses(rr.list, a)
    ensures var r, s := DualRun(Interval, a, [Top()], 0), IntervalSubstituteRun(a, d, value);
            r.Done? && s.Done? ==>
              var rs, sr := IntervalSubstituteRun(r.list, d, value), DualRun(Interval, s.list, [Top()], 0);
              rs.Done? && sr.Done? ==> SameClauses(rs.list, sr.list)
  {
    ListNormalIsNormal(Interval, a);
    DualRunMeaning(Interval, a, 0);
    DualInvolution(SetOf(a));
    IntervalSubstituteMeaning(a, d, value);
    ReversalCommutes(SetOf(a), d, SetOf(value));
    var r, s := DualRun(Interval, a, [Top()], 0), IntervalSubstituteRun(a, d, value);
    if r.Done? {
      DualRunMeaning(Interval, r.list, 0);
      IntervalSubstituteMeaning(r.list, d, value);
      var rr := DualRun(Interval, r.list, [Top()], 0);
      if rr.Done? { EqualityIsComplete(Interval, rr.list, a); }
      if s.Done? {
        DualRunMeaning(Interval, s.list, 0);
        var rs, sr := IntervalSubstituteRun(r.list, d, value), DualRun(Interval, s.list, [Top()], 0);
        if rs.Done? && sr.Done? { EqualityIsComplete(Interval, rs.list, sr.list); }
      }
    }
  }
}
