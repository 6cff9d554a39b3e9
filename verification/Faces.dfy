/** faces.c: endpoint faces of interval expressions, face substitution, entailment
    and universal quantification. */
module Faces {
  import opened Lattice
  import opened Formulas
  import opened Intervals

  // ---- Endpoints --------------------------------------------------------------------

  function EndpointRun(r: seq<DimClause>, endpoint: bool, work: nat): Outcome {
    if endpoint then InsertAll(Face, [], r, work) else DualRun(Face, r, [Top()], work)
  }

  lemma EndpointMeaning(r: seq<DimClause>, endpoint: bool, work: nat)
    ensures match EndpointRun(r, endpoint, work)
            case Limit => true
            case Done(list, _) => ListNormal(Face, list) && SetOf(list) == EndpointOf(SetOf(r), endpoint)
  {
    if endpoint {
      InsertAllMeaning(Face, [], r, work);
      assert SetOf([]) + SetOf(r) == SetOf(r);
    } else {
      DualRunMeaning(Face, r, work);
    }
  }

  method EndpointWork(out: Formula, r: Formula, endpoint: nat, work: nat) returns (status: Status, spent: nat)
    requires out.Valid() && r.Valid()
    modifies out
    ensures out.Valid() && out.sort == old(out.sort)
    ensures status == BadInput <==> out.sort != Face || old(r.sort) != Interval || endpoint > 1
    ensures status != Ok ==> unchanged(out)
    ensures status == Ok ==> fresh(out.clauses)
    ensures status != BadInput ==>
              EndpointRun(old(r.List()), endpoint == 1, work) == if status == Ok then Done(out.List(), spent) else Limit
  {
    spent := work;
    if out.sort != Face || r.sort != Interval || endpoint > 1 { return BadInput, spent; }
    var candidate := new Formula(Face);
    if endpoint == 1 {
      status, spent := candidate.InsertEach(r, spent);
    } else {
      candidate.One();
      status, spent := DualInto(candidate, r, spent);
    }
    if status == Ok { out.Publish(candidate); }
  }

  /** The face (r = endpoint). */
  method Endpoint(out: Formula, r: Formula, endpoint: nat) returns (status: Status)
    requires out.Valid() && r.Valid()
    modifies out
    ensures out.Valid() && out.sort == old(out.sort)
    ensures status == BadInput <==> out.sort != Face || old(r.sort) != Interval || endpoint > 1
    ensures status != Ok ==> unchanged(out)
    ensures status == LimitExceeded <==> status != BadInput && EndpointRun(old(r.List()), endpoint == 1, 0) == Limit
    ensures status == Ok ==>
              ListNormal(Face, out.List()) && SetOf(out.List()) == EndpointOf(old(SetOf(r.List())), endpoint == 1)
  {
    EndpointMeaning(r.List(), endpoint == 1, 0);
    var spent;
    status, spent := EndpointWork(out, r, endpoint, 0);
  }

  // ---- Substitution -----------------------------------------------------------------

  function FaceSubstituteRun(list: seq<DimClause>, d: Dim, value: seq<DimClause>): Outcome {
    if !NeedsOne(list, d) && !NeedsZero(list, d) then CopyRun(Face, list) else
    match if NeedsZero(list, d) then EndpointRun(value, false, 0) else Done([], 0)
    case Limit => Limit
    case Done(zero, w0) =>
      match if NeedsOne(list, d) then EndpointRun(value, true, w0) else Done([], w0)
      case Limit => Limit
      case Done(one, w1) => ReplaceRun(Face, list, d, one, zero, [], w1)
  }

  /** Face substitution computes the lattice's: each equation on `d` becomes the
      endpoint face of the value. */
  lemma FaceSubstituteMeaning(list: seq<DimClause>, d: Dim, value: seq<DimClause>)
    requires ListNormal(Face, list)
    ensures match FaceSubstituteRun(list, d, value)
            case Limit => true
            case Done(r, _) => ListNormal(Face, r) && SetOf(r) == SubstituteFace(SetOf(list), d, SetOf(value))
  {
    UnneededIsUnmentioned(list, d);
    ListNormalIsNormal(Face, list);
    var run := FaceSubstituteRun(list, d, value);
    if !NeedsOne(list, d) && !NeedsZero(list, d) {
      CopyMeaning(Face, list);
      ReduceFixed(Face, SetOf(list));
      SubstituteUnmentioned(Face, SetOf(list), d, SetOf(value));
    } else if run.Done? {
      var zero := if NeedsZero(list, d) then EndpointRun(value, false, 0) else Done([], 0);
      var one := if NeedsOne(list, d) then EndpointRun(value, true, zero.work) else Done([], zero.work);
      EndpointMeaning(value, false, 0);
      EndpointMeaning(value, true, zero.work);
      var target := SubstituteFace(SetOf(list), d, SetOf(value));
      ReplaceRunHolds(Face, list, d, one.list, zero.list, [], one.work, Generic(Top()));
      ListNormalIsNormal(Face, run.list);
      SubstitutedHolds(Face, SetOf(list), d, SetOf(value), Generic(Top()));
      forall v: Point<Dim> | Admits(Face, v) ensures Holds(SetOf(run.list), v) <==> Holds(target, v) {
        ReplaceRunHolds(Face, list, d, one.list, zero.list, [], one.work, v);
        SubstitutedHolds(Face, SetOf(list), d, SetOf(value), v);
        EndpointHolds(SetOf(value), true, v);
        EndpointHolds(SetOf(value), false, v);
        UnneededHolds(list, d, v, Holds(SetOf(one.list), v), Holds(SetOf(zero.list), v),
                      Holds(SetOf(value), v), !Holds(SetOf(value), Opposite(v)));
      }
      Canonical(Face, SetOf(run.list), target);
    }
  }

  /** The endpoint face when it is needed, and otherwise an unused 0. */
  method NeededEndpoint(needed: bool, value: Formula, endpoint: nat, work: nat)
    returns (status: Status, face: Formula, spent: nat)
    requires value.Valid() && value.sort == Interval && endpoint <= 1
    ensures fresh(face) && face.Valid() && face.sort == Face && (status == Ok || status == LimitExceeded)
    ensures (if needed then EndpointRun(value.List(), endpoint == 1, work) else Done([], work))
            == if status == Ok then Done(face.List(), spent) else Limit
  {
    face := new Formula(Face);
    status, spent := Ok, work;
    if needed { status, spent := EndpointWork(face, value, endpoint, spent); }
  }

  /** a[d := value], into `out`. */
  method FaceSubstitute(out: Formula, a: Formula, dimension: nat, value: Formula) returns (status: Status)
    requires out.Valid() && a.Valid() && value.Valid()
    modifies out
    ensures out.Valid() && out.sort == old(out.sort)
    ensures status == BadInput <==>
              out.sort != Face || old(a.sort) != Face || old(value.sort) != Interval || dimension >= DIMENSIONS
    ensures status != Ok ==> unchanged(out)
    ensures status != BadInput ==>
              match FaceSubstituteRun(old(a.List()), dimension, old(value.List()))
              case Done(list, _) => status == Ok && out.List() == list
              case Limit => status == LimitExceeded
  {
    if out.sort != Face || a.sort != Face || value.sort != Interval || dimension >= DIMENSIONS { return BadInput; }
    var d: Dim := dimension;
    var one, zero := Needs(a, d);
    if !one && !zero { status := out.Copy(a); return; }
    var atZero, atOne, spent;
    status, atZero, spent := NeededEndpoint(zero, value, 0, 0);
    if status != Ok { return; }
    status, atOne, spent := NeededEndpoint(one, value, 1, spent);
    if status != Ok { return; }
    var candidate := new Formula(Face);
    status, spent := ReplaceInto(candidate, a, d, atOne, atZero, spent);
    if status == Ok { out.Publish(candidate); }
  }

  /** Taking an endpoint and substituting give the same face in either order: the
      clause lists are equal by `cc_equal`'s test whenever no limit is hit. */
  lemma EndpointThenSubstitute(r: seq<DimClause>, d: Dim, value: seq<DimClause>, endpoint: bool)
    requires ListNormal(Interval, r)
    ensures var face, moved := EndpointRun(r, endpoint, 0), IntervalSubstituteRun(r, d, value);
            face.Done? && moved.Done? ==>
              var left, right := FaceSubstituteRun(face.list, d, value), EndpointRun(moved.list, endpoint, 0);
              left.Done? && right.Done? ==> SameClauses(left.list, right.list)
  {
    var face, moved := EndpointRun(r, endpoint, 0), IntervalSubstituteRun(r, d, value);
    EndpointMeaning(r, endpoint, 0);
    IntervalSubstituteMeaning(r, d, value);
    if face.Done? && moved.Done? {
      FaceSubstituteMeaning(face.list, d, value);
      EndpointMeaning(moved.list, endpoint, 0);
      EndpointCommutes(SetOf(r), d, SetOf(value), endpoint);
      var left, right := FaceSubstituteRun(face.list, d, value), EndpointRun(moved.list, endpoint, 0);
      if left.Done? && right.Done? { EqualityIsComplete(Face, left.list, right.list); }
    }
  }

  // ---- Entailment -------------------------------------------------------------------

  /** phi implies psi: some clause of psi absorbs each clause of phi. For the clause
      lists the kernel keeps, this is implication at every face valuation. */
  method FaceEntails(phi: Formula, psi: Formula) returns (status: Status, result: bool)
    requires phi.Valid() && psi.Valid()
    ensures status == if phi.sort == Face && psi.sort == Face then Ok else BadInput
    ensures status == Ok && ListNormal(Face, phi.List()) ==>
              (result <==> Entails(Face, SetOf(phi.List()), SetOf(psi.List())))
  {
    result := false;
    if phi.sort != Face || psi.sort != Face { return BadInput, result; }
    ghost var s, t := SetOf(phi.List()), SetOf(psi.List());
    if ListNormal(Face, phi.List()) { EntailmentIsCovering(Face, s, t); }
    for i := 0 to phi.length
      invariant forall k :: 0 <= k < i ==> Covered(phi.List()[k], t)
    {
      ghost var c := phi.List()[i];
      var found := false;
      for j := 0 to psi.length
        invariant !found && forall k :: 0 <= k < j ==> !Below(psi.List()[k], c)
      {
        assert psi.List()[j] == psi.clauses[j] && psi.List()[j] in t;
        if Below(psi.clauses[j], phi.clauses[i]) { found := true; break; }
      }
      if !found {
        assert c in s && !Covered(c, t);
        return Ok, false;
      }
      assert Covered(c, t);
    }
    return Ok, true;
  }

  // ---- Universal quantification -------------------------------------------------------

  /** Inserts the clauses without `d`, each with its own work counter. */
  function ForallRun(list: seq<DimClause>, d: Dim, acc: seq<DimClause>): Outcome
    decreases |list|
  {
    if list == [] then Done(acc, 0)
    else if d in list[0].positive + list[0].negative then ForallRun(list[1..], d, acc)
    else match InsertRun(Face, acc, list[0], 0)
      case Limit => Limit
      case Done(next, _) => ForallRun(list[1..], d, next)
  }

  lemma {:induction false} ForallRunMeaning(list: seq<DimClause>, d: Dim, acc: seq<DimClause>)
    requires ListNormal(Face, acc)
    ensures match ForallRun(list, d, acc)
            case Limit => true
            case Done(r, _) =>
              && ListNormal(Face, r)
              && SetOf(r) == Reduce(Face, SetOf(acc) + set c | c in SetOf(list) && d !in c.positive && d !in c.negative)
    decreases |list|
  {
    var kept := set c | c in SetOf(list) && d !in c.positive && d !in c.negative;
    if list == [] {
      ListNormalIsNormal(Face, acc);
      ReduceFixed(Face, SetOf(acc));
      assert SetOf(acc) + kept == SetOf(acc);
    } else {
      var rest := set c | c in SetOf(list[1..]) && d !in c.positive && d !in c.negative;
      assert SetOf(list) == {list[0]} + SetOf(list[1..]);
      if d in list[0].positive + list[0].negative {
        ForallRunMeaning(list[1..], d, acc);
        assert kept == rest;
      } else {
        InsertMeaning(Face, acc, list[0], 0);
        var next := InsertRun(Face, acc, list[0], 0);
        if next.Done? {
          ForallRunMeaning(list[1..], d, next.list);
          ReduceUnion(Face, SetOf(acc) + {list[0]}, rest);
          assert SetOf(acc) + kept == SetOf(acc) + {list[0]} + rest;
        }
      }
    }
  }

  /** The greatest face without the dimension that entails the input. */
  method FaceForall(out: Formula, dimension: nat, face: Formula) returns (status: Status)
    requires out.Valid() && face.Valid()
    modifies out
    ensures out.Valid() && out.sort == old(out.sort)
    ensures status == BadInput <==> out.sort != Face || old(face.sort) != Face || dimension >= DIMENSIONS
    ensures status != Ok ==> unchanged(out)
    ensures status == LimitExceeded <==> status != BadInput && ForallRun(old(face.List()), dimension, []) == Limit
    ensures status == Ok ==>
              ListNormal(Face, out.List()) && SetOf(out.List()) == ForallOf(old(SetOf(face.List())), dimension)
  {
    if out.sort != Face || face.sort != Face || dimension >= DIMENSIONS { return BadInput; }
    var d: Dim := dimension;
    var candidate := new Formula(Face);
    ghost var list := face.List();
    ForallRunMeaning(list, d, []);
    assert SetOf([]) + (set c | c in SetOf(list) && d !in c.positive && d !in c.negative)
        == set c | c in SetOf(list) && d !in c.positive && d !in c.negative;
    var i := 0;
    while i < face.length
      invariant i <= face.length && candidate.Valid() && fresh(candidate) && fresh(candidate.clauses)
      invariant unchanged(out) && face.List() == list && candidate.sort == Face
      invariant ForallRun(list, d, []) == ForallRun(list[i..], d, candidate.List())
    {
      assert list[i..][1..] == list[i + 1..];
      if d !in face.clauses[i].positive + face.clauses[i].negative {
        var spent;
        status, spent := candidate.Insert(face.clauses[i], 0);
        if status != Ok { return; }
      }
      i := i + 1;
    }
    status := Ok;
    out.Publish(candidate);
  }

  /** Dropping the equation instead would be wrong: forall i. ((i=0) or (i=1)) is the
      face 0, although its clauses without the equations are the face 1. */
  lemma ForallOfEndpoints(d: Dim)
    ensures ForallOf({Clause({d}, {}), Clause({}, {d})}, d) == {}
  {
  }
}
