/** The mathematics behind the interval and face algebras: finite joins of finite
    meets of generators, over any type of dimension names.

    The two sorts share the representation and differ in their valuations. In the
    interval, the generators `i` and `1-i` are independent. In a face, `i=1` and
    `i=0` never hold together, but may both fail. */
module Lattice {
  import opened Counting

  datatype Sort = Interval | Face

  /** A meet of generators: in the interval, `i` for the positive and `1-i` for the
      negative names; in a face, the equations `i=1` and `i=0`. */
  datatype Clause<A(==)> = Clause(positive: set<A>, negative: set<A>)

  /** Which generators hold: `one` for the positive ones, `zero` for the negative. */
  datatype Point<!A> = Point(one: iset<A>, zero: iset<A>)

  function Top<A>(): Clause<A> { Clause({}, {}) }

  ghost predicate Admits<A(!new)>(sort: Sort, v: Point<A>) {
    sort.Face? ==> forall d :: !(d in v.one && d in v.zero)
  }

  predicate Consistent<A>(sort: Sort, c: Clause<A>) {
    sort.Face? ==> c.positive !! c.negative
  }

  /** `a` is a submeet of `b`, so `b` implies `a`. */
  predicate Below<A>(a: Clause<A>, b: Clause<A>) {
    a.positive <= b.positive && a.negative <= b.negative
  }

  function Both<A>(a: Clause<A>, b: Clause<A>): Clause<A> {
    Clause(a.positive + b.positive, a.negative + b.negative)
  }

  ghost predicate ClauseHolds<A(!new)>(c: Clause<A>, v: Point<A>) {
    && (forall d :: d in c.positive ==> d in v.one)
    && (forall d :: d in c.negative ==> d in v.zero)
  }

  ghost predicate Holds<A(!new)>(s: set<Clause<A>>, v: Point<A>) {
    exists c :: c in s && ClauseHolds(c, v)
  }

  ghost predicate Antichain<A(!new)>(s: set<Clause<A>>) {
    forall a, b :: a in s && b in s && Below(a, b) ==> a == b
  }

  ghost predicate Normal<A(!new)>(sort: Sort, s: set<Clause<A>>) {
    Antichain(s) && forall c :: c in s ==> Consistent(sort, c)
  }

  ghost predicate Entails<A(!new)>(sort: Sort, s: set<Clause<A>>, t: set<Clause<A>>) {
    forall v :: Admits(sort, v) && Holds(s, v) ==> Holds(t, v)
  }

  ghost predicate Equivalent<A(!new)>(sort: Sort, s: set<Clause<A>>, t: set<Clause<A>>) {
    forall v :: Admits(sort, v) ==> (Holds(s, v) <==> Holds(t, v))
  }

  /** Some clause of `t` absorbs `c`. */
  ghost predicate Covered<A(!new)>(c: Clause<A>, t: set<Clause<A>>) {
    exists b :: b in t && Below(b, c)
  }

  /** The decision `cc_face_entails` makes, on sets. */
  ghost predicate Covers<A(!new)>(s: set<Clause<A>>, t: set<Clause<A>>) {
    forall c {:trigger Covered(c, t)} :: c in s ==> Covered(c, t)
  }

  // ---- Completeness --------------------------------------------------------

  /** The valuation in which exactly the generators of a clause hold. */
  ghost function Generic<A(!new)>(c: Clause<A>): Point<A> {
    Point(iset d | d in c.positive, iset d | d in c.negative)
  }

  lemma BelowIsImplication<A(!new)>(a: Clause<A>, b: Clause<A>, v: Point<A>)
    requires Below(a, b) && ClauseHolds(b, v)
    ensures ClauseHolds(a, v)
  {
  }

  lemma GenericDecides<A(!new)>(a: Clause<A>, c: Clause<A>)
    ensures ClauseHolds(c, Generic(c))
    ensures ClauseHolds(a, Generic(c)) <==> Below(a, c)
  {
  }

  /** Soundness and completeness of the clause-by-clause entailment test. */
  lemma EntailmentIsCovering<A(!new)>(sort: Sort, s: set<Clause<A>>, t: set<Clause<A>>)
    requires forall c :: c in s ==> Consistent(sort, c)
    ensures Entails(sort, s, t) <==> Covers(s, t)
  {
    if Covers(s, t) {
      forall v | Admits(sort, v) && Holds(s, v) ensures Holds(t, v) {
        var c :| c in s && ClauseHolds(c, v);
        assert Covered(c, t);
        var b :| b in t && Below(b, c);
        BelowIsImplication(b, c, v);
      }
    }
    if Entails(sort, s, t) {
      forall c | c in s ensures Covered(c, t) {
        GenericDecides(c, c);
        assert Consistent(sort, c) && Admits(sort, Generic(c)) && Holds(s, Generic(c));
        var b :| b in t && ClauseHolds(b, Generic(c));
        GenericDecides(b, c);
      }
    }
  }

  /** Antichains are canonical: equivalent normal lists have the same clauses. */
  lemma Canonical<A(!new)>(sort: Sort, s: set<Clause<A>>, t: set<Clause<A>>)
    requires Normal(sort, s) && Normal(sort, t)
    ensures Equivalent(sort, s, t) <==> s == t
  {
    if Equivalent(sort, s, t) {
      EntailmentIsCovering(sort, s, t);
      EntailmentIsCovering(sort, t, s);
      CoveringAntichains(s, t);
      CoveringAntichains(t, s);
    }
  }

  lemma CoveringAntichains<A(!new)>(s: set<Clause<A>>, t: set<Clause<A>>)
    requires Antichain(s) && Covers(s, t) && Covers(t, s)
    ensures s <= t
  {
    forall c | c in s ensures c in t {
      assert Covered(c, t);
      var b :| b in t && Below(b, c);
      assert Covered(b, s);
      var a :| a in s && Below(a, b);
      BelowTransitive(a, b, c);
      assert a == c;
      BelowAntisymmetric(b, c);
    }
  }

  lemma BelowTransitive<A>(a: Clause<A>, b: Clause<A>, c: Clause<A>)
    requires Below(a, b) && Below(b, c)
    ensures Below(a, c)
  {
  }

  lemma BelowAntisymmetric<A>(a: Clause<A>, b: Clause<A>)
    requires Below(a, b) && Below(b, a)
    ensures a == b
  {
  }

  // ---- Absorption ------------------------------------------------------------

  /** The consistent clauses of `s` that no other one absorbs. */
  ghost function Reduce<A(!new)>(sort: Sort, s: set<Clause<A>>): set<Clause<A>> {
    set c | c in s && Consistent(sort, c) && forall b :: b in s && Below(b, c) ==> b == c
  }

  ghost function Size<A>(c: Clause<A>): nat { |c.positive| + |c.negative| }

  lemma {:induction false} SomeMinimal<A(!new)>(sort: Sort, s: set<Clause<A>>, c: Clause<A>)
    requires c in s && Consistent(sort, c)
    ensures Covered(c, Reduce(sort, s))
    decreases Size(c)
  {
    if b :| b in s && Below(b, c) && b != c {
      SubsetSize(b.positive, c.positive);
      SubsetSize(b.negative, c.negative);
      SomeMinimal(sort, s, b);
      var a :| a in Reduce(sort, s) && Below(a, b);
      assert Below(a, c);
    } else {
      assert c in Reduce(sort, s) && Below(c, c);
    }
  }

  lemma ReduceNormal<A(!new)>(sort: Sort, s: set<Clause<A>>)
    ensures Normal(sort, Reduce(sort, s))
    ensures Covers(Reduce(sort, s), s)
  {
    forall c | c in Reduce(sort, s) ensures Covered(c, s) {
      assert c in s && Below(c, c);
    }
  }

  /** Reduction changes no value of the sort. */
  lemma ReduceHolds<A(!new)>(sort: Sort, s: set<Clause<A>>, v: Point<A>)
    requires Admits(sort, v)
    ensures Holds(Reduce(sort, s), v) <==> Holds(s, v)
  {
    if c :| c in s && ClauseHolds(c, v) {
      assert Consistent(sort, c);
      SomeMinimal(sort, s, c);
      var b :| b in Reduce(sort, s) && Below(b, c);
      BelowIsImplication(b, c, v);
    }
  }

  lemma ReduceFixed<A(!new)>(sort: Sort, s: set<Clause<A>>)
    requires Normal(sort, s)
    ensures Reduce(sort, s) == s
  {
  }

  /** Reducing an accumulator first changes nothing. */
  lemma ReduceUnion<A(!new)>(sort: Sort, s: set<Clause<A>>, t: set<Clause<A>>)
    ensures Reduce(sort, Reduce(sort, s) + t) == Reduce(sort, s + t)
  {
    ReduceNormal(sort, Reduce(sort, s) + t);
    ReduceNormal(sort, s + t);
    forall v | Admits(sort, v)
      ensures Holds(Reduce(sort, Reduce(sort, s) + t), v) <==> Holds(Reduce(sort, s + t), v)
    {
      ReduceHolds(sort, Reduce(sort, s) + t, v);
      ReduceHolds(sort, s + t, v);
      ReduceHolds(sort, s, v);
      UnionHolds(Reduce(sort, s), t, v);
      UnionHolds(s, t, v);
    }
    Canonical(sort, Reduce(sort, Reduce(sort, s) + t), Reduce(sort, s + t));
  }

  lemma UnionHolds<A(!new)>(s: set<Clause<A>>, t: set<Clause<A>>, v: Point<A>)
    ensures Holds(s + t, v) <==> Holds(s, v) || Holds(t, v)
  {
  }

  // ---- The lattice operations -------------------------------------------------

  ghost function JoinOf<A(!new)>(sort: Sort, s: set<Clause<A>>, t: set<Clause<A>>): set<Clause<A>> {
    Reduce(sort, s + t)
  }

  ghost function Pairs<A(!new)>(s: set<Clause<A>>, t: set<Clause<A>>): set<Clause<A>> {
    set a, b | a in s && b in t :: Both(a, b)
  }

  ghost function MeetOf<A(!new)>(sort: Sort, s: set<Clause<A>>, t: set<Clause<A>>): set<Clause<A>> {
    Reduce(sort, Pairs(s, t))
  }

  lemma BothHolds<A(!new)>(a: Clause<A>, b: Clause<A>, v: Point<A>)
    ensures ClauseHolds(Both(a, b), v) <==> ClauseHolds(a, v) && ClauseHolds(b, v)
  {
  }

  lemma PairsHolds<A(!new)>(s: set<Clause<A>>, t: set<Clause<A>>, v: Point<A>)
    ensures Holds(Pairs(s, t), v) <==> Holds(s, v) && Holds(t, v)
  {
    if Holds(s, v) && Holds(t, v) {
      var a :| a in s && ClauseHolds(a, v);
      var b :| b in t && ClauseHolds(b, v);
      BothHolds(a, b, v);
      assert Both(a, b) in Pairs(s, t);
    }
    if c :| c in Pairs(s, t) && ClauseHolds(c, v) {
      var a, b :| a in s && b in t && c == Both(a, b);
      BothHolds(a, b, v);
    }
  }

  lemma JoinHolds<A(!new)>(sort: Sort, s: set<Clause<A>>, t: set<Clause<A>>, v: Point<A>)
    requires Admits(sort, v)
    ensures Holds(JoinOf(sort, s, t), v) <==> Holds(s, v) || Holds(t, v)
  {
    ReduceHolds(sort, s + t, v);
    UnionHolds(s, t, v);
  }

  lemma MeetHolds<A(!new)>(sort: Sort, s: set<Clause<A>>, t: set<Clause<A>>, v: Point<A>)
    requires Admits(sort, v)
    ensures Holds(MeetOf(sort, s, t), v) <==> Holds(s, v) && Holds(t, v)
  {
    ReduceHolds(sort, Pairs(s, t), v);
    PairsHolds(s, t, v);
  }

  // ---- Reversal and endpoints ---------------------------------------------------

  /** The join of the reversed generators of a meet: `1-i` for `i` and `i` for `1-i`;
      as a face, the join of the equations that make one factor 0. */
  ghost function DualLiterals<A(!new)>(c: Clause<A>): set<Clause<A>> {
    (set d | d in c.positive :: Clause({}, {d})) + (set d | d in c.negative :: Clause({d}, {}))
  }

  /** The meet, over the clauses of `s`, of their reversed generators. */
  ghost function Dual<A(!new)>(sort: Sort, s: set<Clause<A>>): set<Clause<A>> {
    if s == {} then {Top()} else
    var c :| c in s;
    MeetOf(sort, Dual(sort, s - {c}), DualLiterals(c))
  }

  /** The point at which reversal is evaluated: a generator holds exactly when its
      reverse does not. */
  ghost function Opposite<A(!new)>(v: Point<A>): Point<A> {
    Point(iset d | d !in v.zero, iset d | d !in v.one)
  }

  lemma OppositeTwice<A(!new)>(v: Point<A>)
    ensures Opposite(Opposite(v)) == v
  {
    assert Opposite(Opposite(v)).one == v.one;
    assert Opposite(Opposite(v)).zero == v.zero;
  }

  lemma DualLiteralsHold<A(!new)>(c: Clause<A>, v: Point<A>)
    ensures Holds(DualLiterals(c), v) <==> !ClauseHolds(c, Opposite(v))
  {
    if Holds(DualLiterals(c), v) {
      var l :| l in DualLiterals(c) && ClauseHolds(l, v);
      if d :| d in c.positive && l == Clause({}, {d}) {
        assert d in l.negative;
      } else {
        var d :| d in c.negative && l == Clause({d}, {});
        assert d in l.positive;
      }
    } else {
      forall d | d in c.positive ensures d in Opposite(v).one {
        var l := Clause({}, {d});
        assert l in DualLiterals(c) && !ClauseHolds(l, v);
      }
      forall d | d in c.negative ensures d in Opposite(v).zero {
        var l := Clause({d}, {});
        assert l in DualLiterals(c) && !ClauseHolds(l, v);
      }
    }
  }

  lemma {:induction false} DualHolds<A(!new)>(sort: Sort, s: set<Clause<A>>, v: Point<A>)
    requires Admits(sort, v)
    ensures Holds(Dual(sort, s), v) <==> !Holds(s, Opposite(v))
  {
    if s == {} {
      assert ClauseHolds(Top(), v) && Top() in Dual(sort, s);
    } else {
      var c :| c in s && Dual(sort, s) == MeetOf(sort, Dual(sort, s - {c}), DualLiterals(c));
      DualHolds(sort, s - {c}, v);
      DualLiteralsHold(c, v);
      MeetHolds(sort, Dual(sort, s - {c}), DualLiterals(c), v);
      assert s == (s - {c}) + {c};
      UnionHolds(s - {c}, {c}, Opposite(v));
    }
  }

  lemma DualNormal<A(!new)>(sort: Sort, s: set<Clause<A>>)
    ensures Normal(sort, Dual(sort, s))
  {
    if s != {} {
      var c :| c in s && Dual(sort, s) == MeetOf(sort, Dual(sort, s - {c}), DualLiterals(c));
      ReduceNormal(sort, Pairs(Dual(sort, s - {c}), DualLiterals(c)));
    }
  }

  /** The face `r = 1`: the same clauses, without the inconsistent ones. */
  ghost function AtOne<A(!new)>(r: set<Clause<A>>): set<Clause<A>> { Reduce(Face, r) }

  /** The face `r = 0`. */
  ghost function AtZero<A(!new)>(r: set<Clause<A>>): set<Clause<A>> { Dual(Face, r) }

  lemma MonotoneHolds<A(!new)>(s: set<Clause<A>>, v: Point<A>, w: Point<A>)
    requires v.one <= w.one && v.zero <= w.zero && Holds(s, v)
    ensures Holds(s, w)
  {
    var c :| c in s && ClauseHolds(c, v);
    assert ClauseHolds(c, w);
  }

  /** (s=0) and (s=1) meet in the face 0, for every interval expression s. */
  lemma EndpointsDisjoint<A(!new)>(s: set<Clause<A>>, v: Point<A>)
    requires Admits(Face, v)
    ensures !(Holds(AtZero(s), v) && Holds(AtOne(s), v))
  {
    DualHolds(Face, s, v);
    ReduceHolds(Face, s, v);
    if Holds(s, v) {
      assert v.one <= Opposite(v).one && v.zero <= Opposite(v).zero;
      MonotoneHolds(s, v, Opposite(v));
    }
  }

  /** (r=0) is the face ((1-r)=1). */
  lemma ZeroIsReversedOne<A(!new)>(r: set<Clause<A>>)
    ensures AtZero(r) == AtOne(Dual(Interval, r))
  {
    DualNormal(Face, r);
    ReduceNormal(Face, Dual(Interval, r));
    forall v | Admits(Face, v) ensures Holds(AtZero(r), v) <==> Holds(AtOne(Dual(Interval, r)), v) {
      DualHolds(Face, r, v);
      DualHolds(Interval, r, v);
      ReduceHolds(Face, Dual(Interval, r), v);
    }
    Canonical(Face, AtZero(r), AtOne(Dual(Interval, r)));
  }

  /** (r=e), for an interval expression r. */
  ghost function EndpointOf<A(!new)>(r: set<Clause<A>>, endpoint: bool): set<Clause<A>> {
    if endpoint then AtOne(r) else AtZero(r)
  }

  lemma EndpointHolds<A(!new)>(r: set<Clause<A>>, endpoint: bool, v: Point<A>)
    requires Admits(Face, v)
    ensures Normal(Face, EndpointOf(r, endpoint))
    ensures Holds(EndpointOf(r, endpoint), v) <==> if endpoint then Holds(r, v) else !Holds(r, Opposite(v))
  {
    ReduceNormal(Face, r);
    ReduceHolds(Face, r, v);
    DualNormal(Face, r);
    DualHolds(Face, r, v);
  }

  lemma DualInvolution<A(!new)>(s: set<Clause<A>>)
    requires Normal(Interval, s)
    ensures Dual(Interval, Dual(Interval, s)) == s
  {
    DualNormal(Interval, Dual(Interval, s));
    forall v: Point<A> ensures Holds(Dual(Interval, Dual(Interval, s)), v) <==> Holds(s, v) {
      DualHolds(Interval, Dual(Interval, s), v);
      DualHolds(Interval, s, Opposite(v));
      OppositeTwice(v);
    }
    Canonical(Interval, Dual(Interval, Dual(Interval, s)), s);
  }

  // ---- Substitution ----------------------------------------------------------------

  function Without<A(==)>(c: Clause<A>, d: A): Clause<A> {
    Clause(c.positive - {d}, c.negative - {d})
  }

  ghost predicate Mentions<A(!new)>(s: set<Clause<A>>, d: A) {
    exists c :: c in s && (d in c.positive || d in c.negative)
  }

  /** One clause with `d` replaced: its other generators, met with the value at a
      positive and the reversed value at a negative occurrence of `d`. */
  ghost function ReplacedClause<A(!new)>(sort: Sort, c: Clause<A>, d: A, one: set<Clause<A>>,
                                  zero: set<Clause<A>>): set<Clause<A>> {
    var rest := Reduce(sort, {Without(c, d)});
    var first := if d in c.positive then MeetOf(sort, rest, one) else rest;
    if d in c.negative then MeetOf(sort, first, zero) else first
  }

  ghost function Replaced<A(!new)>(sort: Sort, s: set<Clause<A>>, d: A, one: set<Clause<A>>,
                            zero: set<Clause<A>>): set<Clause<A>> {
    if s == {} then {} else
    var c :| c in s;
    JoinOf(sort, Replaced(sort, s - {c}, d, one, zero), ReplacedClause(sort, c, d, one, zero))
  }

  /** The point with the value of `d` given. */
  ghost function At<A(!new)>(v: Point<A>, d: A, one: bool, zero: bool): Point<A> {
    Point(iset a | if a == d then one else a in v.one, iset a | if a == d then zero else a in v.zero)
  }

  lemma ReplacedClauseHolds<A(!new)>(sort: Sort, c: Clause<A>, d: A, one: set<Clause<A>>, zero: set<Clause<A>>,
                              v: Point<A>)
    requires Admits(sort, v)
    ensures Holds(ReplacedClause(sort, c, d, one, zero), v) <==> ClauseHolds(c, At(v, d, Holds(one, v), Holds(zero, v)))
  {
    var rest := Reduce(sort, {Without(c, d)});
    var first := if d in c.positive then MeetOf(sort, rest, one) else rest;
    var w := At(v, d, Holds(one, v), Holds(zero, v));
    ReduceHolds(sort, {Without(c, d)}, v);
    MeetHolds(sort, rest, one, v);
    MeetHolds(sort, first, zero, v);
    assert Holds({Without(c, d)}, v) <==> ClauseHolds(Without(c, d), v) by {
      assert Without(c, d) in {Without(c, d)};
    }
    assert ClauseHolds(Without(c, d), v) <==> ClauseHolds(Without(c, d), w);
    if ClauseHolds(Without(c, d), w) && (d in c.positive ==> d in w.one) && (d in c.negative ==> d in w.zero) {
      assert forall a :: a in c.positive ==> a == d || a in Without(c, d).positive;
      assert forall a :: a in c.negative ==> a == d || a in Without(c, d).negative;
      assert ClauseHolds(c, w);
    }
  }

  lemma {:induction false} ReplacedHolds<A(!new)>(sort: Sort, s: set<Clause<A>>, d: A, one: set<Clause<A>>,
                                           zero: set<Clause<A>>, v: Point<A>)
    requires Admits(sort, v)
    ensures Holds(Replaced(sort, s, d, one, zero), v) <==> Holds(s, At(v, d, Holds(one, v), Holds(zero, v)))
  {
    if s != {} {
      var c :| c in s && Replaced(sort, s, d, one, zero)
        == JoinOf(sort, Replaced(sort, s - {c}, d, one, zero), ReplacedClause(sort, c, d, one, zero));
      var w := At(v, d, Holds(one, v), Holds(zero, v));
      ReplacedHolds(sort, s - {c}, d, one, zero, v);
      ReplacedClauseHolds(sort, c, d, one, zero, v);
      JoinHolds(sort, Replaced(sort, s - {c}, d, one, zero), ReplacedClause(sort, c, d, one, zero), v);
      assert s == (s - {c}) + {c};
      UnionHolds(s - {c}, {c}, w);
      assert Holds({c}, w) <==> ClauseHolds(c, w) by { assert c in {c}; }
    }
  }

  lemma ReplacedNormal<A(!new)>(sort: Sort, s: set<Clause<A>>, d: A, one: set<Clause<A>>, zero: set<Clause<A>>)
    ensures Normal(sort, Replaced(sort, s, d, one, zero))
  {
    if s != {} {
      var c :| c in s && Replaced(sort, s, d, one, zero)
        == JoinOf(sort, Replaced(sort, s - {c}, d, one, zero), ReplacedClause(sort, c, d, one, zero));
      ReduceNormal(sort, Replaced(sort, s - {c}, d, one, zero) + ReplacedClause(sort, c, d, one, zero));
    }
  }

  /** Interval substitution: `i` goes to the value, `1-i` to its reversal. */
  ghost function SubstituteInterval<A(!new)>(s: set<Clause<A>>, d: A, value: set<Clause<A>>): set<Clause<A>> {
    Replaced(Interval, s, d, value, Dual(Interval, value))
  }

  /** Face substitution: `i=1` goes to the face value=1, `i=0` to value=0. */
  ghost function SubstituteFace<A(!new)>(s: set<Clause<A>>, d: A, value: set<Clause<A>>): set<Clause<A>> {
    Replaced(Face, s, d, AtOne(value), AtZero(value))
  }

  ghost function Substituted<A(!new)>(sort: Sort, s: set<Clause<A>>, d: A, value: set<Clause<A>>): set<Clause<A>> {
    if sort.Interval? then SubstituteInterval(s, d, value) else SubstituteFace(s, d, value)
  }

  /** Where a substituted formula is evaluated. It is the same for both sorts. */
  ghost function Moved<A(!new)>(v: Point<A>, d: A, value: set<Clause<A>>): Point<A> {
    At(v, d, Holds(value, v), !Holds(value, Opposite(v)))
  }

  /** Substitution is the homomorphism that sends the generators of `d` to the value
      and its reversal, and it keeps face points consistent. */
  lemma SubstitutedHolds<A(!new)>(sort: Sort, s: set<Clause<A>>, d: A, value: set<Clause<A>>, v: Point<A>)
    requires Admits(sort, v)
    ensures Normal(sort, Substituted(sort, s, d, value))
    ensures Admits(sort, Moved(v, d, value))
    ensures Holds(Substituted(sort, s, d, value), v) <==> Holds(s, Moved(v, d, value))
  {
    if sort.Interval? {
      ReplacedNormal(sort, s, d, value, Dual(Interval, value));
      ReplacedHolds(sort, s, d, value, Dual(Interval, value), v);
      DualHolds(sort, value, v);
    } else {
      ReplacedNormal(sort, s, d, AtOne(value), AtZero(value));
      ReplacedHolds(sort, s, d, AtOne(value), AtZero(value), v);
      EndpointHolds(value, true, v);
      EndpointHolds(value, false, v);
      EndpointsDisjoint(value, v);
    }
  }

  lemma MovedOpposite<A(!new)>(v: Point<A>, d: A, value: set<Clause<A>>)
    ensures Moved(Opposite(v), d, value) == Opposite(Moved(v, d, value))
  {
    OppositeTwice(v);
    assert Moved(Opposite(v), d, value).one == Opposite(Moved(v, d, value)).one;
    assert Moved(Opposite(v), d, value).zero == Opposite(Moved(v, d, value)).zero;
  }

  lemma UnmentionedHolds<A(!new)>(s: set<Clause<A>>, d: A, v: Point<A>, one: bool, zero: bool)
    requires !Mentions(s, d)
    ensures Holds(s, At(v, d, one, zero)) <==> Holds(s, v)
  {
    forall c | c in s ensures ClauseHolds(c, At(v, d, one, zero)) <==> ClauseHolds(c, v) {
    }
  }

  // ---- Laws -----------------------------------------------------------------------

  /** Reversal commutes with substitution. */
  lemma ReversalCommutes<A(!new)>(s: set<Clause<A>>, d: A, value: set<Clause<A>>)
    ensures Dual(Interval, SubstituteInterval(s, d, value)) == SubstituteInterval(Dual(Interval, s), d, value)
  {
    var left, right := Dual(Interval, SubstituteInterval(s, d, value)), SubstituteInterval(Dual(Interval, s), d, value);
    DualNormal(Interval, SubstituteInterval(s, d, value));
    forall v: Point<A> ensures Holds(left, v) <==> Holds(right, v) && Normal(Interval, right) {
      DualHolds(Interval, SubstituteInterval(s, d, value), v);
      SubstitutedHolds(Interval, s, d, value, Opposite(v));
      MovedOpposite(v, d, value);
      SubstitutedHolds(Interval, Dual(Interval, s), d, value, v);
      DualHolds(Interval, s, Moved(v, d, value));
    }
    SubstitutedHolds(Interval, Dual(Interval, s), d, value, Generic(Top()));
    Canonical(Interval, left, right);
  }

  /** Taking an endpoint commutes with substitution. */
  lemma EndpointCommutes<A(!new)>(r: set<Clause<A>>, d: A, value: set<Clause<A>>, endpoint: bool)
    ensures SubstituteFace(EndpointOf(r, endpoint), d, value) == EndpointOf(SubstituteInterval(r, d, value), endpoint)
  {
    var left, right := SubstituteFace(EndpointOf(r, endpoint), d, value),
        EndpointOf(SubstituteInterval(r, d, value), endpoint);
    var none := Generic<A>(Top());
    SubstitutedHolds(Face, EndpointOf(r, endpoint), d, value, none);
    EndpointHolds(SubstituteInterval(r, d, value), endpoint, none);
    forall v: Point<A> | Admits(Face, v) ensures Holds(left, v) <==> Holds(right, v) {
      var w := Moved(v, d, value);
      SubstitutedHolds(Face, EndpointOf(r, endpoint), d, value, v);
      EndpointHolds(r, endpoint, w);
      EndpointHolds(SubstituteInterval(r, d, value), endpoint, v);
      SubstitutedHolds(Interval, r, d, value, v);
      SubstitutedHolds(Interval, r, d, value, Opposite(v));
      MovedOpposite(v, d, value);
    }
    Canonical(Face, left, right);
  }

  /** Substitutions compose: `s[d:=r][e:=t]` is `s[e:=t][d:=r[e:=t]]` when `d` is not
      in `t`, and `s[d:=r][d:=t]` is `s[d:=r[d:=t]]`. Both hold in both sorts. */
  lemma SubstitutionsCompose<A(!new)>(sort: Sort, s: set<Clause<A>>, d: A, r: set<Clause<A>>, e: A, t: set<Clause<A>>)
    requires e == d || !Mentions(t, d)
    ensures Substituted(sort, Substituted(sort, s, d, r), e, t)
            == Substituted(sort, if e == d then s else Substituted(sort, s, e, t), d, SubstituteInterval(r, e, t))
  {
    var inner, last := if e == d then s else Substituted(sort, s, e, t), SubstituteInterval(r, e, t);
    var left, right := Substituted(sort, Substituted(sort, s, d, r), e, t), Substituted(sort, inner, d, last);
    SubstitutedHolds(sort, Substituted(sort, s, d, r), e, t, Generic<A>(Top()));
    SubstitutedHolds(sort, inner, d, last, Generic<A>(Top()));
    forall v: Point<A> | Admits(sort, v) ensures Holds(left, v) <==> Holds(right, v) {
      SubstitutedHolds(sort, Substituted(sort, s, d, r), e, t, v);
      SubstitutedHolds(sort, s, d, r, Moved(v, e, t));
      SubstitutedHolds(sort, inner, d, last, v);
      SubstitutedHolds(sort, s, e, t, Moved(v, d, last));
      ComposedPoint(v, d, r, e, t);
    }
    Canonical(sort, left, right);
  }

  lemma ComposedPoint<A(!new)>(v: Point<A>, d: A, r: set<Clause<A>>, f: A, t: set<Clause<A>>)
    requires f == d || !Mentions(t, d)
    ensures var u := Moved(v, d, SubstituteInterval(r, f, t));
            Moved(Moved(v, f, t), d, r) == if f == d then u else Moved(u, f, t)
  {
    var last := SubstituteInterval(r, f, t);
    var w, u := Moved(v, f, t), Moved(v, d, last);
    SubstitutedHolds(Interval, r, f, t, v);
    SubstitutedHolds(Interval, r, f, t, Opposite(v));
    MovedOpposite(v, f, t);
    if f != d {
      UnmentionedHolds(t, d, v, Holds(last, v), !Holds(last, Opposite(v)));
      MovedOpposite(v, d, last);
      var o := Opposite(v);
      OppositeTwice(v);
      UnmentionedHolds(t, d, o, Holds(last, o), !Holds(last, Opposite(o)));
      assert Moved(w, d, r).one == Moved(u, f, t).one;
      assert Moved(w, d, r).zero == Moved(u, f, t).zero;
    } else {
      assert Moved(w, d, r).one == u.one;
      assert Moved(w, d, r).zero == u.zero;
    }
  }

  /** A normal formula is unchanged at a dimension it does not mention. */
  lemma SubstituteUnmentioned<A(!new)>(sort: Sort, s: set<Clause<A>>, d: A, value: set<Clause<A>>)
    requires Normal(sort, s) && !Mentions(s, d)
    ensures Substituted(sort, s, d, value) == s
  {
    SubstitutedHolds(sort, s, d, value, Generic<A>(Top()));
    forall v: Point<A> | Admits(sort, v) ensures Holds(Substituted(sort, s, d, value), v) <==> Holds(s, v) {
      SubstitutedHolds(sort, s, d, value, v);
      UnmentionedHolds(s, d, v, Holds(value, v), !Holds(value, Opposite(v)));
    }
    Canonical(sort, Substituted(sort, s, d, value), s);
  }

  // ---- Universal quantification -------------------------------------------------------

  ghost function ForallOf<A(!new)>(s: set<Clause<A>>, d: A): set<Clause<A>> {
    Reduce(Face, set c | c in s && d !in c.positive && d !in c.negative)
  }

  /** It holds exactly where the face holds without any equation on `d`. */
  lemma ForallHolds<A(!new)>(s: set<Clause<A>>, d: A, v: Point<A>)
    requires Admits(Face, v)
    ensures Normal(Face, ForallOf(s, d)) && !Mentions(ForallOf(s, d), d)
    ensures Holds(ForallOf(s, d), v) <==> Holds(s, At(v, d, false, false))
  {
    var kept := set c | c in s && d !in c.positive && d !in c.negative;
    ReduceNormal(Face, kept);
    ReduceHolds(Face, kept, v);
    forall c | c in s
      ensures ClauseHolds(c, At(v, d, false, false)) <==> c in kept && ClauseHolds(c, v)
    {
    }
  }

  /** Adjunction: for psi independent of `d`, psi entails forall d. phi exactly when
      psi entails phi. So it is the greatest such face, and it entails phi. */
  lemma ForallAdjoint<A(!new)>(psi: set<Clause<A>>, phi: set<Clause<A>>, d: A)
    requires !Mentions(psi, d)
    ensures Entails(Face, psi, ForallOf(phi, d)) <==> Entails(Face, psi, phi)
    ensures Entails(Face, ForallOf(phi, d), phi)
  {
    forall v | Admits(Face, v) && Holds(ForallOf(phi, d), v) ensures Holds(phi, v) {
      ForallHolds(phi, d, v);
      MonotoneHolds(phi, At(v, d, false, false), v);
    }
    if Entails(Face, psi, phi) {
      forall v | Admits(Face, v) && Holds(psi, v) ensures Holds(ForallOf(phi, d), v) {
        ForallHolds(phi, d, v);
        UnmentionedHolds(psi, d, v, false, false);
        assert Admits(Face, At(v, d, false, false));
      }
    }
  }

  lemma ForallMeets<A(!new)>(phi: set<Clause<A>>, psi: set<Clause<A>>, d: A)
    ensures ForallOf(MeetOf(Face, phi, psi), d) == MeetOf(Face, ForallOf(phi, d), ForallOf(psi, d))
  {
    var left, right := ForallOf(MeetOf(Face, phi, psi), d), MeetOf(Face, ForallOf(phi, d), ForallOf(psi, d));
    ForallHolds(MeetOf(Face, phi, psi), d, Generic<A>(Top()));
    ReduceNormal(Face, Pairs(ForallOf(phi, d), ForallOf(psi, d)));
    forall v: Point<A> | Admits(Face, v) ensures Holds(left, v) <==> Holds(right, v) {
      var w := At(v, d, false, false);
      ForallHolds(MeetOf(Face, phi, psi), d, v);
      MeetHolds(Face, phi, psi, w);
      ForallHolds(phi, d, v);
      ForallHolds(psi, d, v);
      MeetHolds(Face, ForallOf(phi, d), ForallOf(psi, d), v);
    }
    Canonical(Face, left, right);
  }

  // ---- Renaming ------------------------------------------------------------------------

  function RenamedClause<A, B(==)>(c: Clause<A>, g: A -> B): Clause<B> {
    Clause(set a | a in c.positive :: g(a), set a | a in c.negative :: g(a))
  }

  ghost function RenamedClauses<A(!new), B(!new)>(s: set<Clause<A>>, g: A -> B): set<Clause<B>> {
    set c | c in s :: RenamedClause(c, g)
  }

  /** The formula with each dimension renamed, in normal form. */
  ghost function Renamed<A(!new), B(!new)>(sort: Sort, s: set<Clause<A>>, g: A -> B): set<Clause<B>> {
    Reduce(sort, RenamedClauses(s, g))
  }

  /** The point that gives each dimension the value of its new name. */
  ghost function Pulled<A(!new), B(!new)>(v: Point<B>, g: A -> B): Point<A> {
    Point(iset a: A | g(a) in v.one, iset a: A | g(a) in v.zero)
  }

  lemma RenamedClauseHolds<A(!new), B(!new)>(c: Clause<A>, g: A -> B, v: Point<B>)
    ensures ClauseHolds(RenamedClause(c, g), v) <==> ClauseHolds(c, Pulled(v, g))
  {
    if ClauseHolds(RenamedClause(c, g), v) {
      forall a | a in c.positive ensures a in Pulled(v, g).one { assert g(a) in RenamedClause(c, g).positive; }
      forall a | a in c.negative ensures a in Pulled(v, g).zero { assert g(a) in RenamedClause(c, g).negative; }
    }
  }

  lemma RenamedHolds<A(!new), B(!new)>(sort: Sort, s: set<Clause<A>>, g: A -> B, v: Point<B>)
    requires Admits(sort, v)
    ensures Normal(sort, Renamed(sort, s, g)) && Admits(sort, Pulled(v, g))
    ensures Holds(Renamed(sort, s, g), v) <==> Holds(s, Pulled(v, g))
  {
    ReduceNormal(sort, RenamedClauses(s, g));
    ReduceHolds(sort, RenamedClauses(s, g), v);
    forall c | c in s ensures ClauseHolds(RenamedClause(c, g), v) <==> ClauseHolds(c, Pulled(v, g)) {
      RenamedClauseHolds(c, g, v);
    }
    if Holds(s, Pulled(v, g)) {
      var c :| c in s && ClauseHolds(c, Pulled(v, g));
      assert RenamedClause(c, g) in RenamedClauses(s, g);
    }
  }

  /** Two points that agree on the mentioned dimensions give a formula one value. */
  lemma AgreeingHolds<A(!new)>(s: set<Clause<A>>, v: Point<A>, w: Point<A>)
    requires forall a :: Mentions(s, a) ==> (a in v.one <==> a in w.one) && (a in v.zero <==> a in w.zero)
    ensures Holds(s, v) <==> Holds(s, w)
  {
    forall c | c in s ensures ClauseHolds(c, v) <==> ClauseHolds(c, w) {
      forall a | a in c.positive ensures a in v.one <==> a in w.one { assert Mentions(s, a); }
      forall a | a in c.negative ensures a in v.zero <==> a in w.zero { assert Mentions(s, a); }
    }
  }

  /** Renaming mentions only new names of mentioned dimensions. */
  lemma RenamedMentions<A(!new), B(!new)>(sort: Sort, s: set<Clause<A>>, g: A -> B, b: B)
    requires Mentions(Renamed(sort, s, g), b)
    ensures exists a :: Mentions(s, a) && g(a) == b
  {
    var r :| r in Renamed(sort, s, g) && (b in r.positive || b in r.negative);
    var c :| c in s && r == RenamedClause(c, g);
    if b in r.positive {
      var a :| a in c.positive && g(a) == b;
      assert Mentions(s, a);
    } else {
      var a :| a in c.negative && g(a) == b;
      assert Mentions(s, a);
    }
  }

  /** An injective renaming loses nothing. */
  lemma RenamedInjective<A(!new), B(!new)>(sort: Sort, s: set<Clause<A>>, g: A -> B)
    requires Normal(sort, s)
    requires forall a, b :: Mentions(s, a) && Mentions(s, b) && g(a) == g(b) ==> a == b
    ensures Renamed(sort, s, g) == RenamedClauses(s, g)
    ensures forall c, d :: c in s && d in s && Below(RenamedClause(c, g), RenamedClause(d, g)) ==> c == d
  {
    forall c, d | c in s && d in s && Below(RenamedClause(c, g), RenamedClause(d, g)) ensures c == d {
      forall a | a in c.positive ensures a in d.positive {
        assert g(a) in RenamedClause(d, g).positive && Mentions(s, a);
        var b :| b in d.positive && g(b) == g(a);
        assert Mentions(s, b);
      }
      forall a | a in c.negative ensures a in d.negative {
        assert g(a) in RenamedClause(d, g).negative && Mentions(s, a);
        var b :| b in d.negative && g(b) == g(a);
        assert Mentions(s, b);
      }
    }
    forall c | c in s ensures Consistent(sort, RenamedClause(c, g)) {
      if sort.Face? && !(RenamedClause(c, g).positive !! RenamedClause(c, g).negative) {
        var x :| x in RenamedClause(c, g).positive && x in RenamedClause(c, g).negative;
        var a :| a in c.positive && g(a) == x;
        var b :| b in c.negative && g(b) == x;
        assert Mentions(s, a) && Mentions(s, b);
        assert false;
      }
    }
  }
}
