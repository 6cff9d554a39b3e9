/** signatures.c: the recogniser of constructor types of declared types, on syntax as
    written. Names are those of the sort, the earlier constructors and the positions
    bound so far. */
module Signatures {

  const ARGUMENTS := 64
  const CUBE_DIMENSIONS := 16
  const TRUNCATION_MAX := 14
  const BOUNDARY_DEPTH := 256

  /** Syntax with names. `Binder` is any other term binder, `Operation` a composition,
      a homogeneous composition or a transport, and `Other` any other node. */
  datatype Tree =
    | Absent
    | Var(symbol: nat)
    | Pi(name: nat, domain: Tree, body: Tree)
    | Lam(name: nat, domain: Tree, body: Tree)
    | Binder(kind: nat, name: nat, domain: Tree, body: Tree)
    | App(operator: Tree, argument: Tree)
    | Path(dimension: nat, family: Tree, start: Tree, end: Tree)
    | PLam(dimension: nat, family: Tree, under: Tree)
    | PApp(path: Tree, annotation: Tree, formula: nat)
    | Operation(parts: seq<Tree>)
    | Other(kind: nat, parts: seq<Tree>)

  function Free(t: Tree): set<nat> {
    match t
    case Absent => {}
    case Var(x) => {x}
    case Pi(x, a, b) => Free(a) + (Free(b) - {x})
    case Lam(x, a, b) => Free(a) + (Free(b) - {x})
    case Binder(_, x, a, b) => Free(a) + (Free(b) - {x})
    case App(f, a) => Free(f) + Free(a)
    case Path(_, c, a, b) => Free(c) + Free(a) + Free(b)
    case PLam(_, c, a) => Free(c) + Free(a)
    case PApp(a, c, _) => Free(a) + Free(c)
    case Operation(parts) => FreeIn(parts)
    case Other(_, parts) => FreeIn(parts)
  }

  function FreeIn(parts: seq<Tree>): set<nat> {
    if parts == [] then {} else Free(parts[0]) + FreeIn(parts[1..])
  }

  function Size(t: Tree): (n: nat)
    ensures n > 0
  {
    match t
    case Absent => 1
    case Var(_) => 1
    case Pi(_, a, b) => 1 + Size(a) + Size(b)
    case Lam(_, a, b) => 1 + Size(a) + Size(b)
    case Binder(_, _, a, b) => 1 + Size(a) + Size(b)
    case App(f, a) => 1 + Size(f) + Size(a)
    case Path(_, c, a, b) => 1 + Size(c) + Size(a) + Size(b)
    case PLam(_, c, a) => 1 + Size(c) + Size(a)
    case PApp(a, c, _) => 1 + Size(a) + Size(c)
    case Operation(_) => 1
    case Other(_, _) => 1
  }

  datatype Option<T> = None | Some(value: T)

  datatype Constructor = Constructor(symbol: nat, data: nat, positions: nat, dimensions: nat)

  /** A signature under construction: its parameters' symbols, its sort, and the
      constructors so far. */
  datatype Signature = Signature(symbols: seq<nat>, sort: nat, constructors: seq<Constructor>)

  datatype Position = Position(symbol: nat, arity: nat)

  /** What a constructor type is checked against. */
  datatype Shape = Shape(signature: Signature, self: nat, positions: seq<Position>)

  function ConstructorNames(cs: seq<Constructor>): set<nat> {
    set i | 0 <= i < |cs| :: cs[i].symbol
  }

  function PositionNames(ps: seq<Position>): set<nat> {
    set i | 0 <= i < |ps| :: ps[i].symbol
  }

  function Names(sh: Shape): set<nat> {
    {sh.signature.sort} + ConstructorNames(sh.signature.constructors) + PositionNames(sh.positions)
  }

  predicate Mentions(sh: Shape, t: Tree) { Free(t) * Names(sh) != {} }

  /** The names that a binder inside a constructor type may not take. */
  predicate Reserved(sh: Shape, symbol: nat) {
    symbol in sh.signature.symbols || symbol == sh.self || symbol in Names(sh)
  }

  function FindPosition(ps: seq<Position>, symbol: nat): (r: Option<nat>)
    ensures r.Some? ==> r.value < |ps| && ps[r.value].symbol == symbol
    ensures r.None? ==> symbol !in PositionNames(ps)
  {
    if ps == [] then None
    else if ps[0].symbol == symbol then Some(0)
    else match FindPosition(ps[1..], symbol)
      case None => None
      case Some(i) => Some(i + 1)
  }

  function FindConstructor(cs: seq<Constructor>, symbol: nat): (r: Option<nat>)
    ensures r.Some? ==> r.value < |cs| && cs[r.value].symbol == symbol
    ensures r.None? ==> symbol !in ConstructorNames(cs)
  {
    if cs == [] then None
    else if cs[0].symbol == symbol then Some(0)
    else match FindConstructor(cs[1..], symbol)
      case None => None
      case Some(i) => Some(i + 1)
  }

  // ---- The recogniser -------------------------------------------------------------------

  function Head(t: Tree): Tree {
    if t.App? then Head(t.operator) else t
  }

  /** The arguments of an application, in order. */
  function Arguments(t: Tree): (r: seq<Tree>)
    ensures forall i :: 0 <= i < |r| ==> Size(r[i]) < Size(t)
  {
    if t.App? then Arguments(t.operator) + [t.argument] else []
  }

  /** A path binder's last family, within the dimensions allowed. */
  function CubeEnd(t: Tree, guard: nat): Tree {
    if t.Path? && guard <= CUBE_DIMENSIONS then CubeEnd(t.family, guard + 1) else t
  }

  /** A positional argument: a boundary under its arity's binders. */
  predicate Positional(sh: Shape, e: Tree, depth: nat)
    decreases Size(e), 1
  {
    depth <= BOUNDARY_DEPTH
    && if e.Lam? then !Reserved(sh, e.name) && !Mentions(sh, e.domain) && Positional(sh, e.body, depth + 1)
       else Endpoint(sh, e, depth + 1)
  }

  /** A type that a boundary carries: a cube over the sort, if any. */
  predicate Carried(sh: Shape, t: Tree, depth: nat)
    decreases Size(t), 1
  {
    t.Absent? || (CubeEnd(t, 0) == Var(sh.signature.sort) && Cube(sh, t, 0, depth).Some?)
  }

  predicate ArgumentsOk(sh: Shape, arguments: seq<Tree>, data: nat, depth: nat, bound: nat)
    requires forall i :: 0 <= i < |arguments| ==> Size(arguments[i]) < bound
    decreases bound, 0, |arguments|
  {
    if arguments == [] then true else
    var last := |arguments| - 1;
    && ArgumentsOk(sh, arguments[..last], data, depth, bound)
    && if last < data then !Mentions(sh, arguments[last]) else Positional(sh, arguments[last], depth + 1)
  }

  /** A boundary: a position or an earlier constructor, applied, or a path application or
      abstraction of a boundary. */
  predicate Endpoint(sh: Shape, e: Tree, depth: nat)
    decreases Size(e), 0
  {
    depth <= BOUNDARY_DEPTH
    && match e
       case PLam(_, family, body) => Carried(sh, family, depth + 1) && Endpoint(sh, body, depth + 1)
       case PApp(path, annotation, _) => Carried(sh, annotation, depth + 1) && Endpoint(sh, path, depth + 1)
       case _ => Applied(sh, e, depth)
  }

  predicate Applied(sh: Shape, e: Tree, depth: nat)
    requires !e.PLam? && !e.PApp?
    decreases Size(e), 0, |Arguments(e)| + 1
  {
    var arguments, h := Arguments(e), Head(e);
    |arguments| <= ARGUMENTS && h.Var?
    && match FindPosition(sh.positions, h.symbol)
       case Some(p) => |arguments| == sh.positions[p].arity && forall i :: 0 <= i < |arguments| ==>
         !Mentions(sh, arguments[i])
       case None =>
         match FindConstructor(sh.signature.constructors, h.symbol)
         case None => false
         case Some(c) =>
           var k := sh.signature.constructors[c];
           |arguments| == k.data + k.positions && ArgumentsOk(sh, arguments, k.data, depth, Size(e))
  }

  /** A cube over the sort: its number of path binders. */
  function Cube(sh: Shape, c: Tree, guard: nat, nesting: nat): Option<nat>
    decreases Size(c), 0
  {
    if guard > CUBE_DIMENSIONS || nesting > BOUNDARY_DEPTH then None
    else match c
      case Var(x) => if x == sh.signature.sort then Some(0) else None
      case Path(_, family, start, end) =>
        (match Cube(sh, family, guard + 1, nesting)
         case None => None
         case Some(inner) =>
           if Endpoint(sh, start, nesting) && Endpoint(sh, end, nesting) then Some(inner + 1) else None)
      case _ => None
  }

  // ---- What acceptance means ----------------------------------------------------------------

  /** How many of an application's first arguments are data, where its head is an earlier
      constructor; every argument of anything else is. */
  function DataArguments(sg: Signature, positions: seq<Position>, t: Tree): nat {
    match Head(t)
    case Var(x) =>
      if FindPosition(positions, x).Some? then |Arguments(t)|
      else (match FindConstructor(sg.constructors, x)
            case Some(c) => sg.constructors[c].data
            case None => |Arguments(t)|)
    case _ => |Arguments(t)|
  }

  /** The names occur in a term only as heads of applications, in paths, and in a
      constructor's positional arguments: never in a binder's type, in data, or under
      any other operation. */
  ghost predicate Proper(sh: Shape, t: Tree, names: set<nat>)
    decreases t
  {
    match t
    case Absent => true
    case Var(_) => true
    case Pi(x, a, b) => Free(a) !! names && Proper(sh, b, names - {x})
    case Lam(x, a, b) => Free(a) !! names && Proper(sh, b, names - {x})
    case Binder(_, x, a, b) => Free(a) !! names && Proper(sh, b, names - {x})
    case App(f, a) =>
      Proper(sh, f, names) && Proper(sh, a, names)
      && (Free(a) !! names || |Arguments(f)| >= DataArguments(sh.signature, sh.positions, t))
    case Path(_, c, a, b) => Proper(sh, c, names) && Proper(sh, a, names) && Proper(sh, b, names)
    case PLam(_, c, a) => Proper(sh, c, names) && Proper(sh, a, names)
    case PApp(a, c, _) => Proper(sh, a, names) && Proper(sh, c, names)
    case Operation(parts) => FreeIn(parts) !! names
    case Other(_, parts) => FreeIn(parts) !! names
  }

  /** A term that mentions no name is proper. */
  lemma {:induction false} CleanProper(sh: Shape, t: Tree, names: set<nat>)
    requires Free(t) !! names
    ensures Proper(sh, t, names)
    decreases t
  {
    match t
    case Pi(x, a, b) => CleanProper(sh, b, names - {x});
    case Lam(x, a, b) => CleanProper(sh, b, names - {x});
    case Binder(_, x, a, b) => CleanProper(sh, b, names - {x});
    case App(f, a) =>
      CleanProper(sh, f, names);
      CleanProper(sh, a, names);
    case Path(_, c, a, b) =>
      CleanProper(sh, c, names);
      CleanProper(sh, a, names);
      CleanProper(sh, b, names);
    case PLam(_, c, a) =>
      CleanProper(sh, c, names);
      CleanProper(sh, a, names);
    case PApp(a, c, _) =>
      CleanProper(sh, a, names);
      CleanProper(sh, c, names);
    case _ =>
  }

  lemma UnreservedNames(sh: Shape, x: nat)
    requires !Reserved(sh, x)
    ensures Names(sh) - {x} == Names(sh)
  {
  }

  lemma {:induction false} PositionalProper(sh: Shape, e: Tree, depth: nat)
    requires Positional(sh, e, depth)
    ensures Proper(sh, e, Names(sh))
    decreases Size(e), 1
  {
    if e.Lam? {
      UnreservedNames(sh, e.name);
      PositionalProper(sh, e.body, depth + 1);
    } else {
      EndpointProper(sh, e, depth + 1);
    }
  }

  lemma {:induction false} EndpointProper(sh: Shape, e: Tree, depth: nat)
    requires Endpoint(sh, e, depth)
    ensures Proper(sh, e, Names(sh))
    decreases Size(e), 0
  {
    if e.PLam? {
      CarriedProper(sh, e.family, depth + 1);
      EndpointProper(sh, e.under, depth + 1);
    } else if e.PApp? {
      CarriedProper(sh, e.annotation, depth + 1);
      EndpointProper(sh, e.path, depth + 1);
    } else {
      AppliedProper(sh, e, depth);
    }
  }

  lemma {:induction false} CarriedProper(sh: Shape, t: Tree, depth: nat)
    requires Carried(sh, t, depth)
    ensures Proper(sh, t, Names(sh))
    decreases Size(t), 1
  {
    if !t.Absent? { CubeProper(sh, t, 0, depth); }
  }

  lemma {:induction false} CubeProper(sh: Shape, c: Tree, guard: nat, nesting: nat)
    requires Cube(sh, c, guard, nesting).Some?
    ensures Proper(sh, c, Names(sh))
    decreases Size(c), 0
  {
    if c.Path? {
      CubeProper(sh, c.family, guard + 1, nesting);
      EndpointProper(sh, c.start, nesting);
      EndpointProper(sh, c.end, nesting);
    }
  }

  /** Each argument of a boundary's application is data, or proper. */
  ghost predicate ArgumentsProper(sh: Shape, arguments: seq<Tree>, data: nat) {
    forall i :: 0 <= i < |arguments| ==>
      if i < data then Free(arguments[i]) !! Names(sh) else Proper(sh, arguments[i], Names(sh))
  }

  lemma {:induction false} ArgumentsOkProper(sh: Shape, arguments: seq<Tree>, data: nat, depth: nat, bound: nat)
    requires forall i :: 0 <= i < |arguments| ==> Size(arguments[i]) < bound
    requires ArgumentsOk(sh, arguments, data, depth, bound)
    ensures ArgumentsProper(sh, arguments, data)
    decreases bound, 0, |arguments|
  {
    if arguments != [] {
      var last := |arguments| - 1;
      ArgumentsOkProper(sh, arguments[..last], data, depth, bound);
      if last >= data { PositionalProper(sh, arguments[last], depth + 1); }
      forall i | 0 <= i < |arguments|
        ensures if i < data then Free(arguments[i]) !! Names(sh) else Proper(sh, arguments[i], Names(sh))
      {
        if i < last {
          assert arguments[..last][i] == arguments[i];
        } else if i < data {
          assert !Mentions(sh, arguments[i]);
        }
      }
    }
  }

  lemma Unmentioned(sh: Shape, t: Tree)
    requires !Mentions(sh, t)
    ensures Free(t) !! Names(sh)
  {
    forall x | x in Free(t) ensures x !in Names(sh) { assert x !in Free(t) * Names(sh); }
  }

  lemma {:induction false} AppliedProper(sh: Shape, e: Tree, depth: nat)
    requires !e.PLam? && !e.PApp? && Applied(sh, e, depth)
    ensures Proper(sh, e, Names(sh))
    decreases Size(e), 0, |Arguments(e)| + 1
  {
    var arguments, h := Arguments(e), Head(e);
    var data := DataArguments(sh.signature, sh.positions, e);
    if FindPosition(sh.positions, h.symbol).None? {
      ArgumentsOkProper(sh, arguments, data, depth, Size(e));
    } else {
      forall i | 0 <= i < |arguments| ensures i < data && Free(arguments[i]) !! Names(sh) {
        Unmentioned(sh, arguments[i]);
      }
    }
    assert ArgumentsProper(sh, arguments, data);
    SpineProper(sh, e, data);
  }

  /** An application whose arguments are data or proper is proper. */
  lemma {:induction false} SpineProper(sh: Shape, t: Tree, data: nat)
    requires Head(t).Var? && ArgumentsProper(sh, Arguments(t), data)
    requires data >= |Arguments(t)| || data == DataArguments(sh.signature, sh.positions, t)
    ensures Proper(sh, t, Names(sh))
    decreases t
  {
    if t.App? {
      var arguments, k := Arguments(t), |Arguments(t.operator)|;
      assert arguments[k] == t.argument;
      assert ArgumentsProper(sh, Arguments(t.operator), data) by {
        forall i | 0 <= i < k
          ensures if i < data then Free(Arguments(t.operator)[i]) !! Names(sh)
                  else Proper(sh, Arguments(t.operator)[i], Names(sh))
        {
          assert arguments[i] == Arguments(t.operator)[i];
        }
      }
      SpineProper(sh, t.operator, data);
      if k < data { CleanProper(sh, t.argument, Names(sh)); }
    }
  }

  // ---- Constructor types ----------------------------------------------------------------------

  datatype Accepted = Accepted(data: nat, positions: nat, dimensions: nat)

  datatype Ended = Ended(arity: nat, end: Tree)

  /** A position's type: its arity, whose binders mention no name, and its end. */
  function ArityOf(sh: Shape, body: Tree, arity: nat): Option<Ended> {
    if !body.Pi? then Some(Ended(arity, body))
    else if Reserved(sh, body.name) || Mentions(sh, body.domain) || arity + 1 > ARGUMENTS then None
    else ArityOf(sh, body.body, arity + 1)
  }

  function Bound(sh: Shape, symbol: nat, arity: nat): Shape {
    sh.(positions := sh.positions + [Position(symbol, arity)])
  }

  /** A constructor type: data arguments, then positions, then a cube over the sort. */
  function ShapeOf(sh: Shape, t: Tree, data: nat): Option<Accepted>
    decreases t
  {
    if t.Pi? then
      if Reserved(sh, t.name) || data + |sh.positions| >= ARGUMENTS then None
      else if Mentions(sh, t.domain) then
        (match ArityOf(sh, t.domain, 0)
         case None => None
         case Some(e) =>
           if Cube(sh, e.end, 0, 0).None? then None else ShapeOf(Bound(sh, t.name, e.arity), t.body, data))
      else if sh.positions != [] then None
      else ShapeOf(sh, t.body, data + 1)
    else
      match Cube(sh, t, 0, 0)
      case None => None
      case Some(d) => Some(Accepted(data, |sh.positions|, d))
  }

  method PositionArity(sh: Shape, domain: Tree) returns (r: Option<Ended>)
    ensures r == ArityOf(sh, domain, 0)
  {
    var body, arity := domain, 0;
    while body.Pi?
      invariant ArityOf(sh, domain, 0) == ArityOf(sh, body, arity)
      decreases body
    {
      if Reserved(sh, body.name) || Mentions(sh, body.domain) { return None; }
      arity := arity + 1;
      if arity > ARGUMENTS { return None; }
      body := body.body;
    }
    return Some(Ended(arity, body));
  }

  /** Fills the shape, argument by argument. */
  method ConstructorShape(signature: Signature, self: nat, typ: Tree) returns (r: Option<Accepted>)
    ensures r == ShapeOf(Shape(signature, self, []), typ, 0)
  {
    var sh, t, data, positions := Shape(signature, self, []), typ, 0, false;
    while t.Pi?
      invariant ShapeOf(Shape(signature, self, []), typ, 0) == ShapeOf(sh, t, data)
      invariant positions <==> sh.positions != []
      decreases t
    {
      if Reserved(sh, t.name) || data + |sh.positions| >= ARGUMENTS { return None; }
      if Mentions(sh, t.domain) {
        var e := PositionArity(sh, t.domain);
        if e.None? || Cube(sh, e.value.end, 0, 0).None? { return None; }
        sh, positions := Bound(sh, t.name, e.value.arity), true;
      } else {
        if positions { return None; }
        data := data + 1;
      }
      t := t.body;
    }
    match Cube(sh, t, 0, 0)
    case None => return None;
    case Some(d) => return Some(Accepted(data, |sh.positions|, d));
  }

  // ---- Strict positivity ------------------------------------------------------------------------

  function PiCount(t: Tree): nat { if t.Pi? then 1 + PiCount(t.body) else 0 }

  /** What a type is finally a type of elements of. */
  function Target(t: Tree): Tree {
    match t
    case Pi(_, _, b) => Target(b)
    case Path(_, c, _, _) => Target(c)
    case _ => t
  }

  /** Every argument either mentions no name, or mentions them properly and ends in the
      sort, as the type itself does. */
  ghost predicate StrictlyPositive(sh: Shape, t: Tree)
    decreases t
  {
    if t.Pi? then
      if Mentions(sh, t.domain) then
        Proper(sh, t.domain, Names(sh)) && Target(t.domain) == Var(sh.signature.sort)
        && StrictlyPositive(Bound(sh, t.name, PiCount(t.domain)), t.body)
      else StrictlyPositive(sh, t.body)
    else Proper(sh, t, Names(sh)) && Target(t) == Var(sh.signature.sort)
  }

  lemma {:induction false} CubeTarget(sh: Shape, c: Tree, guard: nat, nesting: nat)
    requires Cube(sh, c, guard, nesting).Some?
    ensures Target(c) == Var(sh.signature.sort) && PiCount(c) == 0
    decreases c
  {
    if c.Path? { CubeTarget(sh, c.family, guard + 1, nesting); }
  }

  lemma {:induction false} ArityProper(sh: Shape, body: Tree, arity: nat)
    requires ArityOf(sh, body, arity).Some? && Cube(sh, ArityOf(sh, body, arity).value.end, 0, 0).Some?
    ensures Proper(sh, body, Names(sh)) && Target(body) == Var(sh.signature.sort)
    ensures ArityOf(sh, body, arity).value.arity == arity + PiCount(body)
    decreases body
  {
    if body.Pi? {
      UnreservedNames(sh, body.name);
      ArityProper(sh, body.body, arity + 1);
    } else {
      CubeProper(sh, body, 0, 0);
      CubeTarget(sh, body, 0, 0);
    }
  }

  /** An accepted constructor type is strictly positive. */
  lemma {:induction false} AcceptedPositive(sh: Shape, t: Tree, data: nat)
    requires ShapeOf(sh, t, data).Some?
    ensures StrictlyPositive(sh, t)
    decreases t
  {
    if !t.Pi? {
      CubeProper(sh, t, 0, 0);
      CubeTarget(sh, t, 0, 0);
    } else if Mentions(sh, t.domain) {
      ArityProper(sh, t.domain, 0);
      AcceptedPositive(Bound(sh, t.name, PiCount(t.domain)), t.body, data);
    } else {
      AcceptedPositive(sh, t.body, data + 1);
    }
  }

  /** A name occurs in no binder's type and under no operation of a term. */
  ghost predicate NeverLeft(t: Tree, s: nat)
    decreases t
  {
    match t
    case Absent => true
    case Var(_) => true
    case Pi(x, a, b) => s !in Free(a) && (x == s || NeverLeft(b, s))
    case Lam(x, a, b) => s !in Free(a) && (x == s || NeverLeft(b, s))
    case Binder(_, x, a, b) => s !in Free(a) && (x == s || NeverLeft(b, s))
    case App(f, a) => NeverLeft(f, s) && NeverLeft(a, s)
    case Path(_, c, a, b) => NeverLeft(c, s) && NeverLeft(a, s) && NeverLeft(b, s)
    case PLam(_, c, a) => NeverLeft(c, s) && NeverLeft(a, s)
    case PApp(a, c, _) => NeverLeft(a, s) && NeverLeft(c, s)
    case Operation(parts) => s !in FreeIn(parts)
    case Other(_, parts) => s !in FreeIn(parts)
  }

  /** No argument of a constructor type has the name to the left of an arrow. */
  ghost predicate ArgumentsNeverLeft(t: Tree, s: nat)
    decreases t
  {
    if t.Pi? then NeverLeft(t.domain, s) && (t.name == s || ArgumentsNeverLeft(t.body, s)) else NeverLeft(t, s)
  }

  lemma {:induction false} ProperNeverLeft(sh: Shape, t: Tree, names: set<nat>, s: nat)
    requires Proper(sh, t, names) && s in names
    ensures NeverLeft(t, s)
    decreases t
  {
    match t
    case Pi(x, a, b) => if x != s { ProperNeverLeft(sh, b, names - {x}, s); }
    case Lam(x, a, b) => if x != s { ProperNeverLeft(sh, b, names - {x}, s); }
    case Binder(_, x, a, b) => if x != s { ProperNeverLeft(sh, b, names - {x}, s); }
    case App(f, a) =>
      ProperNeverLeft(sh, f, names, s);
      ProperNeverLeft(sh, a, names, s);
    case Path(_, c, a, b) =>
      ProperNeverLeft(sh, c, names, s);
      ProperNeverLeft(sh, a, names, s);
      ProperNeverLeft(sh, b, names, s);
    case PLam(_, c, a) =>
      ProperNeverLeft(sh, c, names, s);
      ProperNeverLeft(sh, a, names, s);
    case PApp(a, c, _) =>
      ProperNeverLeft(sh, a, names, s);
      ProperNeverLeft(sh, c, names, s);
    case _ =>
  }

  /** In an accepted type the sort, an earlier constructor and a position never occur to
      the left of an arrow inside an argument, in a binder's type, or in a composition. */
  lemma {:induction false} PositiveNeverLeft(sh: Shape, t: Tree, s: nat)
    requires StrictlyPositive(sh, t) && s in Names(sh)
    ensures ArgumentsNeverLeft(t, s)
    decreases t
  {
    if !t.Pi? {
      ProperNeverLeft(sh, t, Names(sh), s);
    } else if Mentions(sh, t.domain) {
      ProperNeverLeft(sh, t.domain, Names(sh), s);
      PositionNamed(sh, t.name, PiCount(t.domain));
      PositiveNeverLeft(Bound(sh, t.name, PiCount(t.domain)), t.body, s);
    } else {
      assert s !in Free(t.domain) * Names(sh);
      CleanProper(sh, t.domain, {s});
      ProperNeverLeft(sh, t.domain, {s}, s);
      PositiveNeverLeft(sh, t.body, s);
    }
  }

  lemma PositionNamed(sh: Shape, symbol: nat, arity: nat)
    ensures Names(Bound(sh, symbol, arity)) == Names(sh) + {symbol}
  {
    var ps, qs := sh.positions, sh.positions + [Position(symbol, arity)];
    forall x ensures x in PositionNames(qs) <==> x in PositionNames(ps) || x == symbol {
      if x in PositionNames(ps) {
        var i :| 0 <= i < |ps| && ps[i].symbol == x;
        assert qs[i].symbol == x;
      }
      assert qs[|ps|].symbol == symbol;
    }
  }

  // ---- Data first, then positions -----------------------------------------------------------------

  function Domains(t: Tree): seq<Tree> { if t.Pi? then [t.domain] + Domains(t.body) else [] }

  function Result(t: Tree): Tree { if t.Pi? then Result(t.body) else t }

  function PathCount(t: Tree): nat { if t.Path? then 1 + PathCount(t.family) else 0 }

  lemma {:induction false} CubeDimensions(sh: Shape, c: Tree, guard: nat, nesting: nat)
    requires Cube(sh, c, guard, nesting).Some?
    ensures Cube(sh, c, guard, nesting).value == PathCount(c) && guard + PathCount(c) <= CUBE_DIMENSIONS
    decreases c
  {
    if c.Path? { CubeDimensions(sh, c.family, guard + 1, nesting); }
  }

  /** The counts that acceptance records: the arguments are the data, in which the sort
      does not occur, then the positions, which end in it; the result has as many path
      binders as the constructor has dimensions. */
  lemma {:induction false} AcceptedCounts(sh: Shape, t: Tree, data: nat)
    requires ShapeOf(sh, t, data).Some?
    ensures var r, ds := ShapeOf(sh, t, data).value, Domains(t);
            && data <= r.data && |sh.positions| <= r.positions && r.data + r.positions == data + |sh.positions| + |ds|
            && (sh.positions != [] ==> r.data == data) && r.dimensions == PathCount(Result(t)) <= CUBE_DIMENSIONS
            && (|ds| > 0 ==> r.data + r.positions <= ARGUMENTS)
            && (forall i :: 0 <= i < r.data - data ==> sh.signature.sort !in Free(ds[i]))
            && (forall i :: r.data - data <= i < |ds| ==> Target(ds[i]) == Var(sh.signature.sort))
    decreases t
  {
    var ds := Domains(t);
    if !t.Pi? {
      CubeDimensions(sh, t, 0, 0);
    } else if Mentions(sh, t.domain) {
      ArityProper(sh, t.domain, 0);
      AcceptedCounts(Bound(sh, t.name, PiCount(t.domain)), t.body, data);
      forall i | 0 < i < |ds| ensures ds[i] == Domains(t.body)[i - 1] {}
    } else {
      assert sh.signature.sort !in Free(t.domain) * Names(sh);
      AcceptedCounts(sh, t.body, data + 1);
      forall i | 0 < i < |ds| ensures ds[i] == Domains(t.body)[i - 1] {}
    }
  }

  // ---- Exactly what is accepted ------------------------------------------------------------------

  function Binders(t: Tree): seq<nat> { if t.Pi? then [t.name] + Binders(t.body) else [] }

  /** A type from its arguments' names and types and its result. */
  function Typed(names: seq<nat>, domains: seq<Tree>, result: Tree): Tree
    requires |names| == |domains|
  {
    if names == [] then result else Pi(names[0], domains[0], Typed(names[1..], domains[1..], result))
  }

  lemma {:induction false} TypedItself(t: Tree)
    ensures |Binders(t)| == |Domains(t)| && !Result(t).Pi? && Typed(Binders(t), Domains(t), Result(t)) == t
  {
    if t.Pi? { TypedItself(t.body); }
  }

  /** A name that no parameter, constructor or position has, nor the sort or the signature. */
  ghost predicate Unused(sh: Shape, x: nat) {
    && x !in sh.signature.symbols && x != sh.self && x != sh.signature.sort
    && (forall i :: 0 <= i < |sh.signature.constructors| ==> sh.signature.constructors[i].symbol != x)
    && (forall i :: 0 <= i < |sh.positions| ==> sh.positions[i].symbol != x)
  }

  /** A term in which the sort, the constructors and the positions are not free. */
  ghost predicate Plain(sh: Shape, t: Tree) {
    && sh.signature.sort !in Free(t)
    && (forall i :: 0 <= i < |sh.signature.constructors| ==> sh.signature.constructors[i].symbol !in Free(t))
    && (forall i :: 0 <= i < |sh.positions| ==> sh.positions[i].symbol !in Free(t))
  }

  lemma UnusedPlain(sh: Shape, x: nat, t: Tree)
    ensures Unused(sh, x) <==> !Reserved(sh, x)
    ensures Plain(sh, t) <==> !Mentions(sh, t)
  {
    assert forall i :: 0 <= i < |sh.signature.constructors| ==>
        sh.signature.constructors[i].symbol in ConstructorNames(sh.signature.constructors);
    assert forall i :: 0 <= i < |sh.positions| ==> sh.positions[i].symbol in PositionNames(sh.positions);
    assert forall y :: y in Names(sh) && y in Free(t) ==> y in Free(t) * Names(sh);
  }

  /** Path types of boundaries, down to the sort. */
  ghost predicate Cubical(sh: Shape, c: Tree, nesting: nat) {
    match c
    case Var(x) => x == sh.signature.sort
    case Path(_, family, start, end) =>
      Cubical(sh, family, nesting) && Endpoint(sh, start, nesting) && Endpoint(sh, end, nesting)
    case _ => false
  }

  lemma {:induction false} CubeExactly(sh: Shape, c: Tree, guard: nat, nesting: nat)
    requires guard <= CUBE_DIMENSIONS
    ensures Cube(sh, c, guard, nesting).Some? <==>
              nesting <= BOUNDARY_DEPTH && guard + PathCount(c) <= CUBE_DIMENSIONS && Cubical(sh, c, nesting)
    decreases c
  {
    if c.Path? && guard < CUBE_DIMENSIONS { CubeExactly(sh, c.family, guard + 1, nesting); }
  }

  lemma {:induction false} CubicalMentions(sh: Shape, c: Tree, nesting: nat)
    requires Cubical(sh, c, nesting)
    ensures sh.signature.sort in Free(c) && !c.Pi?
  {
    if c.Path? { CubicalMentions(sh, c.family, nesting); }
  }

  /** Function types of unused names over plain domains. */
  ghost predicate CleanArity(sh: Shape, t: Tree) {
    t.Pi? ==> Unused(sh, t.name) && Plain(sh, t.domain) && CleanArity(sh, t.body)
  }

  lemma {:induction false} ArityExactly(sh: Shape, t: Tree, arity: nat)
    requires arity <= ARGUMENTS
    ensures ArityOf(sh, t, arity)
            == if CleanArity(sh, t) && arity + PiCount(t) <= ARGUMENTS then Some(Ended(arity + PiCount(t), Result(t)))
               else None
  {
    if t.Pi? {
      UnusedPlain(sh, t.name, t.domain);
      if arity < ARGUMENTS { ArityExactly(sh, t.body, arity + 1); }
    }
  }

  lemma {:induction false} ArityMentions(sh: Shape, t: Tree)
    requires CleanArity(sh, t) && sh.signature.sort in Free(Result(t))
    ensures sh.signature.sort in Free(t)
  {
    if t.Pi? { ArityMentions(sh, t.body); }
  }

  /** A position: an unused name, and a type that is a cube under a clean arity. */
  ghost predicate PositionFits(sh: Shape, x: nat, t: Tree) {
    && Unused(sh, x) && CleanArity(sh, t) && PiCount(t) <= ARGUMENTS
    && Cubical(sh, Result(t), 0) && PathCount(Result(t)) <= CUBE_DIMENSIONS
  }

  /** The shape with the first `n` arguments bound as positions. */
  function WithPositions(sh: Shape, names: seq<nat>, domains: seq<Tree>, n: nat): Shape
    requires n <= |names| == |domains|
  {
    sh.(positions := sh.positions + seq(n, i requires 0 <= i < n => Position(names[i], PiCount(domains[i]))))
  }

  /** Arguments that are all positions, each bound for the next and for the result's cube. */
  ghost predicate PositionsFit(sh: Shape, names: seq<nat>, domains: seq<Tree>, result: Tree)
    requires |names| == |domains|
  {
    && (forall i :: 0 <= i < |names| ==> PositionFits(WithPositions(sh, names, domains, i), names[i], domains[i]))
    && Cubical(WithPositions(sh, names, domains, |names|), result, 0) && PathCount(result) <= CUBE_DIMENSIONS
  }

  lemma WithPositionsNext(sh: Shape, names: seq<nat>, domains: seq<Tree>, n: nat)
    requires 0 < n <= |names| == |domains|
    ensures WithPositions(Bound(sh, names[0], PiCount(domains[0])), names[1..], domains[1..], n - 1)
            == WithPositions(sh, names, domains, n)
  {
    assert WithPositions(Bound(sh, names[0], PiCount(domains[0])), names[1..], domains[1..], n - 1).positions
        == WithPositions(sh, names, domains, n).positions;
  }

  lemma PositionsFitNext(sh: Shape, names: seq<nat>, domains: seq<Tree>, result: Tree)
    requires |names| == |domains| > 0
    ensures PositionsFit(sh, names, domains, result) <==>
              && PositionFits(sh, names[0], domains[0])
              && PositionsFit(Bound(sh, names[0], PiCount(domains[0])), names[1..], domains[1..], result)
  {
    assert WithPositions(sh, names, domains, 0).positions == sh.positions;
    forall n | 0 < n <= |names|
      ensures WithPositions(Bound(sh, names[0], PiCount(domains[0])), names[1..], domains[1..], n - 1)
              == WithPositions(sh, names, domains, n)
    {
      WithPositionsNext(sh, names, domains, n);
    }
    var sh', names', domains' := Bound(sh, names[0], PiCount(domains[0])), names[1..], domains[1..];
    if PositionsFit(sh', names', domains', result) && PositionFits(sh, names[0], domains[0]) {
      forall i | 0 <= i < |names| ensures PositionFits(WithPositions(sh, names, domains, i), names[i], domains[i]) {
        if i > 0 { assert PositionFits(WithPositions(sh', names', domains', i - 1), names'[i - 1], domains'[i - 1]); }
      }
    }
    if PositionsFit(sh, names, domains, result) {
      forall i | 0
          <= i < |names'| ensures PositionFits(WithPositions(sh', names', domains', i), names'[i], domains'[i]) {
        assert PositionFits(WithPositions(sh, names, domains, i + 1), names[i + 1], domains[i + 1]);
      }
    }
  }

  /** A position's type mentions the sort. */
  lemma FirstMentions(sh: Shape, t: Tree)
    requires t.Pi? && |Binders(t)| == |Domains(t)| && PositionsFit(sh, Binders(t), Domains(t), Result(t))
    ensures Mentions(sh, t.domain)
  {
    TypedItself(t.body);
    PositionsFitNext(sh, Binders(t), Domains(t), Result(t));
    assert PositionFits(sh, t.name, t.domain);
    CubicalMentions(sh, Result(t.domain), 0);
    ArityMentions(sh, t.domain);
    assert sh.signature.sort in Free(t.domain) * Names(sh);
  }

  /** What is accepted once positions have begun. */
  lemma {:induction false} PositionsExactly(sh: Shape, t: Tree, data: nat)
    requires sh.positions != [] || (t.Pi? ==> Mentions(sh, t.domain))
    ensures ShapeOf(sh, t, data).Some? <==>
              && |Binders(t)| == |Domains(t)| && PositionsFit(sh, Binders(t), Domains(t), Result(t))
              && (t.Pi? ==> data + |sh.positions| + |Binders(t)| <= ARGUMENTS)
    ensures ShapeOf(sh, t, data).Some? ==>
              ShapeOf(sh, t, data).value == Accepted(data, |sh.positions| + |Binders(t)|, PathCount(Result(t)))
    decreases t
  {
    TypedItself(t);
    if !t.Pi? {
      CubeExactly(sh, t, 0, 0);
      assert WithPositions(sh, [], [], 0).positions == sh.positions;
      if Cube(sh, t, 0, 0).Some? { CubeDimensions(sh, t, 0, 0); }
    } else {
      var e := PiCount(t.domain);
      UnusedPlain(sh, t.name, t.domain);
      ArityExactly(sh, t.domain, 0);
      CubeExactly(sh, Result(t.domain), 0, 0);
      PositionsFitNext(sh, Binders(t), Domains(t), Result(t));
      assert Binders(t)[1..] == Binders(t.body) && Domains(t)[1..] == Domains(t.body);
      PositionsExactly(Bound(sh, t.name, e), t.body, data);
      if PositionFits(sh, t.name, t.domain) {
        CubicalMentions(sh, Result(t.domain), 0);
        ArityMentions(sh, t.domain);
        assert sh.signature.sort in Free(t.domain) * Names(sh);
      }
      TypedItself(t.body);
    }
  }

  /** The first `k` arguments are data: unused names of plain types. */
  ghost predicate DataFit(sh: Shape, names: seq<nat>, domains: seq<Tree>, k: nat)
    requires k <= |names| == |domains|
  {
    forall i :: 0 <= i < k ==> Unused(sh, names[i]) && Plain(sh, domains[i])
  }

  lemma DataFitNext(sh: Shape, names: seq<nat>, domains: seq<Tree>, k: nat)
    requires 0 < k <= |names| == |domains|
    ensures DataFit(sh, names, domains, k) <==>
              Unused(sh, names[0]) && Plain(sh, domains[0]) && DataFit(sh, names[1..], domains[1..], k - 1)
    ensures names[k..] == names[1..][k - 1..] && domains[k..] == domains[1..][k - 1..]
  {
    if DataFit(sh, names[1..], domains[1..], k - 1) && Unused(sh, names[0]) && Plain(sh, domains[0]) {
      forall i | 0 <= i < k ensures Unused(sh, names[i]) && Plain(sh, domains[i]) {
        if i > 0 { assert names[i] == names[1..][i - 1] && domains[i] == domains[1..][i - 1]; }
      }
    }
  }

  lemma DataAccepted(sh: Shape, t: Tree, data: nat)
    requires t.Pi? && sh.positions == [] && data < ARGUMENTS && Unused(sh, t.name) && Plain(sh, t.domain)
    ensures ShapeOf(sh, t, data) == ShapeOf(sh, t.body, data + 1)
  {
    UnusedPlain(sh, t.name, t.domain);
  }

  /** Exactly which constructor types are accepted, and with which counts: some data
      arguments, unused names of plain types, then positions, each a cube under a clean
      arity, then a cube; and no more arguments and dimensions than there may be. */
  lemma {:induction false} AcceptedExactly(sh: Shape, t: Tree, data: nat, k: nat)
    requires sh.positions == [] && k <= |Binders(t)| == |Domains(t)|
    requires DataFit(sh, Binders(t), Domains(t), k)
    requires PositionsFit(sh, Binders(t)[k..], Domains(t)[k..], Result(t))
    requires t.Pi? ==> data + |Binders(t)| <= ARGUMENTS
    ensures ShapeOf(sh, t, data) == Some(Accepted(data + k, |Binders(t)| - k, PathCount(Result(t))))
    decreases t
  {
    if k == 0 {
      assert Binders(t)[0..] == Binders(t) && Domains(t)[0..] == Domains(t);
      if t.Pi? { FirstMentions(sh, t); }
      PositionsExactly(sh, t, data);
    } else {
      TypedItself(t.body);
      DataFitNext(sh, Binders(t), Domains(t), k);
      var names, domains := Binders(t.body), Domains(t.body);
      assert Binders(t)[1..] == names && Domains(t)[1..] == domains;
      assert PositionsFit(sh, names[k - 1..], domains[k - 1..], Result(t.body));
      DataAccepted(sh, t, data);
      AcceptedExactly(sh, t.body, data + 1, k - 1);
    }
  }

  /** And nothing else is accepted. */
  lemma {:induction false} AcceptedOnly(sh: Shape, t: Tree, data: nat) returns (k: nat)
    requires sh.positions == [] && ShapeOf(sh, t, data).Some?
    ensures k <= |Binders(t)| == |Domains(t)| && (t.Pi? ==> data + |Binders(t)| <= ARGUMENTS)
    ensures DataFit(sh, Binders(t), Domains(t), k)
    ensures PositionsFit(sh, Binders(t)[k..], Domains(t)[k..], Result(t))
    decreases t
  {
    TypedItself(t);
    if !t.Pi? || Mentions(sh, t.domain) {
      k := 0;
      PositionsExactly(sh, t, data);
      assert Binders(t)[0..] == Binders(t) && Domains(t)[0..] == Domains(t);
    } else {
      UnusedPlain(sh, t.name, t.domain);
      TypedItself(t.body);
      var j := AcceptedOnly(sh, t.body, data + 1);
      k := j + 1;
      assert Binders(t)[1..] == Binders(t.body) && Domains(t)[1..] == Domains(t.body);
      DataFitNext(sh, Binders(t), Domains(t), k);
    }
  }

  // ---- Which boundaries are accepted ---------------------------------------------------------------

  /** A head applied to arguments. */
  function Spine(h: Tree, arguments: seq<Tree>): Tree {
    if arguments == [] then h
    else App(Spine(h, arguments[..|arguments| - 1]), arguments[|arguments| - 1])
  }

  lemma {:induction false} SpineParts(h: Tree, arguments: seq<Tree>)
    requires !h.App?
    ensures Head(Spine(h, arguments)) == h && Arguments(Spine(h, arguments)) == arguments
    ensures arguments != [] ==> Spine(h, arguments).App?
  {
    if arguments != [] { SpineParts(h, arguments[..|arguments| - 1]); }
  }

  /** A position applied to as many plain arguments as its arity. */
  lemma PositionAccepted(sh: Shape, x: nat, arguments: seq<Tree>, depth: nat)
    requires FindPosition(sh.positions, x).Some? && depth <= BOUNDARY_DEPTH
    ensures Endpoint(sh, Spine(Var(x), arguments), depth) <==>
              && |arguments| == sh.positions[FindPosition(sh.positions, x).value].arity <= ARGUMENTS
              && forall i :: 0 <= i < |arguments| ==> Plain(sh, arguments[i])
  {
    SpineParts(Var(x), arguments);
    forall i | 0 <= i < |arguments| ensures Plain(sh, arguments[i]) <==> !Mentions(sh, arguments[i]) {
      UnusedPlain(sh, 0, arguments[i]);
    }
  }

  /** An earlier constructor applied to its plain data and its positional arguments. */
  lemma ConstructorAccepted(sh: Shape, x: nat, arguments: seq<Tree>, depth: nat)
    requires FindPosition(sh.positions, x).None? && FindConstructor(sh.signature.constructors, x).Some?
    requires depth <= BOUNDARY_DEPTH
    ensures var c := sh.signature.constructors[FindConstructor(sh.signature.constructors, x).value];
            Endpoint(sh, Spine(Var(x), arguments), depth) <==>
              && |arguments| == c.data + c.positions <= ARGUMENTS
              && forall i :: 0 <= i < |arguments| ==>
                   if i < c.data then Plain(sh, arguments[i]) else Positional(sh, arguments[i], depth + 1)
  {
    var c := sh.signature.constructors[FindConstructor(sh.signature.constructors, x).value];
    var t := Spine(Var(x), arguments);
    SpineParts(Var(x), arguments);
    ArgumentsExactly(sh, Arguments(t), c.data, depth, Size(t));
  }

  lemma {:induction false} ArgumentsExactly(sh: Shape, arguments: seq<Tree>, data: nat, depth: nat, bound: nat)
    requires forall i :: 0 <= i < |arguments| ==> Size(arguments[i]) < bound
    ensures ArgumentsOk(sh, arguments, data, depth, bound) <==>
              forall i :: 0 <= i < |arguments| ==>
                if i < data then Plain(sh, arguments[i]) else Positional(sh, arguments[i], depth + 1)
  {
    if arguments != [] {
      var last := |arguments| - 1;
      ArgumentsExactly(sh, arguments[..last], data, depth, bound);
      UnusedPlain(sh, 0, arguments[last]);
      assert forall i :: 0 <= i < last ==> arguments[..last][i] == arguments[i];
    }
  }

  // ---- The generated squash -----------------------------------------------------------------------

  function Y(first: nat, j: nat): nat { first + 2 * j }

  function Z(first: nat, j: nat): nat { first + 2 * j + 1 }

  /** The iterated path types of a truncation's squash. */
  function Sphere(sort: nat, first: nat, j: nat): Tree {
    if j == 0 then Var(sort) else Path(j - 1, Sphere(sort, first, j - 1), Var(Y(first, j - 1)), Var(Z(first, j - 1)))
  }

  function SquashFrom(sort: nat, first: nat, j: nat, steps: nat): Tree
    requires j <= steps
    decreases steps - j
  {
    if j == steps then Sphere(sort, first, steps)
    else Pi(Y(first, j), Sphere(sort, first, j),
            Pi(Z(first, j), Sphere(sort, first, j), SquashFrom(sort, first, j + 1, steps)))
  }

  /** The squash of a truncation, from a supply of fresh symbols. */
  method SquashType(sort: nat, first: nat, steps: nat) returns (t: Tree)
    ensures t == SquashFrom(sort, first, 0, steps)
  {
    var types: seq<Tree> := [];
    t := Var(sort);
    var j: nat := 0;
    while j < steps
      invariant j <= steps && t == Sphere(sort, first, j)
      invariant types == seq(j, (i: nat) requires i < j => Sphere(sort, first, i))
    {
      types := types + [t];
      t := Path(j, t, Var(Y(first, j)), Var(Z(first, j)));
      j := j + 1;
    }
    t := Telescope(sort, first, steps, types, t);
  }

  /** Binds the squash's arguments around its result, the last ones first. */
  method Telescope(ghost sort: nat, first: nat, steps: nat, types: seq<Tree>, result: Tree) returns (t: Tree)
    requires types == seq(steps, (i: nat) requires i < steps => Sphere(sort, first, i))
    requires result == Sphere(sort, first, steps)
    ensures t == SquashFrom(sort, first, 0, steps)
  {
    t := result;
    var j := steps;
    while j > 0
      invariant 0 <= j <= steps && t == SquashFrom(sort, first, j, steps)
    {
      j := j - 1;
      t := Pi(Z(first, j), types[j], t);
      t := Pi(Y(first, j), types[j], t);
    }
  }

  /** The positions that the squash has bound before dimension `j`. */
  function SquashPositions(first: nat, j: nat): seq<Position> {
    if j == 0 then [] else SquashPositions(first, j - 1) + [Position(Y(first, j - 1), 0), Position(Z(first, j - 1), 0)]
  }

  /** The ends of the first path types are among the positions. */
  ghost predicate Poles(ps: seq<Position>, first: nat, j: nat) {
    forall i :: 0 <= i < j ==> Y(first, i) in PositionNames(ps) && Z(first, i) in PositionNames(ps)
  }

  ghost predicate AllPlain(ps: seq<Position>) { forall i :: 0 <= i < |ps| ==> ps[i].arity == 0 }

  lemma {:induction false} SquashBound(first: nat, j: nat)
    ensures |SquashPositions(first, j)| == 2 * j && AllPlain(SquashPositions(first, j))
    ensures Poles(SquashPositions(first, j), first, j)
    ensures forall x :: x in PositionNames(SquashPositions(first, j)) ==> first <= x < first + 2 * j
  {
    if j > 0 {
      SquashBound(first, j - 1);
      var ps, qs := SquashPositions(first, j - 1), SquashPositions(first, j);
      assert qs[2 * j - 2].symbol == Y(first, j - 1) && qs[2 * j - 1].symbol == Z(first, j - 1);
      forall i | 0 <= i < j ensures Y(first, i) in PositionNames(qs) && Z(first, i) in PositionNames(qs) {
        if i < j - 1 {
          var a :| 0 <= a < |ps| && ps[a].symbol == Y(first, i);
          var b :| 0 <= b < |ps| && ps[b].symbol == Z(first, i);
          assert qs[a].symbol == Y(first, i) && qs[b].symbol == Z(first, i);
        }
      }
      forall x | x in PositionNames(qs) ensures first <= x < first + 2 * j {
        var a :| 0 <= a < |qs| && qs[a].symbol == x;
        if a < |ps| {
          assert ps[a].symbol == x;
          assert x in PositionNames(ps);
        }
      }
    }
  }

  lemma PlainEndpoint(sh: Shape, x: nat)
    requires AllPlain(sh.positions) && x in PositionNames(sh.positions)
    ensures Endpoint(sh, Var(x), 0)
  {
    assert FindPosition(sh.positions, x).Some?;
    assert Applied(sh, Var(x), 0);
  }

  lemma {:induction false} SphereCube(sh: Shape, first: nat, j: nat, guard: nat)
    requires guard + j <= CUBE_DIMENSIONS && AllPlain(sh.positions)
    requires Poles(sh.positions, first, j)
    ensures Cube(sh, Sphere(sh.signature.sort, first, j), guard, 0) == Some(j)
    ensures sh.signature.sort in Free(Sphere(sh.signature.sort, first, j))
    decreases j
  {
    if j > 0 {
      SphereCube(sh, first, j - 1, guard + 1);
      PlainEndpoint(sh, Y(first, j - 1));
      PlainEndpoint(sh, Z(first, j - 1));
    }
  }

  /** The symbols of a signature all precede the fresh ones. */
  predicate Before(sg: Signature, self: nat, first: nat) {
    && self < first && sg.sort < first && (forall i :: 0 <= i < |sg.symbols| ==> sg.symbols[i] < first)
    && (forall i :: 0 <= i < |sg.constructors| ==> sg.constructors[i].symbol < first)
  }

  lemma PositionStep(sh: Shape, first: nat, j: nat, x: nat, rest: Tree)
    requires j <= CUBE_DIMENSIONS && AllPlain(sh.positions) && !Reserved(sh, x) && |sh.positions| < ARGUMENTS
    requires Poles(sh.positions, first, j)
    ensures ShapeOf(sh, Pi(x, Sphere(sh.signature.sort, first, j), rest), 0) == ShapeOf(Bound(sh, x, 0), rest, 0)
  {
    var b := Sphere(sh.signature.sort, first, j);
    SphereCube(sh, first, j, 0);
    assert sh.signature.sort in Free(b) * Names(sh);
    assert ArityOf(sh, b, 0) == Some(Ended(0, b));
  }

  lemma BoundKeeps(sh: Shape, first: nat, j: nat, x: nat)
    requires Poles(sh.positions, first, j)
    ensures Poles(Bound(sh, x, 0).positions, first, j)
    ensures forall y :: y in PositionNames(Bound(sh, x, 0).positions) ==> y in PositionNames(sh.positions) || y == x
  {
    var ps, qs := sh.positions, Bound(sh, x, 0).positions;
    forall y | y in PositionNames(ps) ensures y in PositionNames(qs) {
      var a :| 0 <= a < |ps| && ps[a].symbol == y;
      assert qs[a].symbol == y;
    }
    forall y | y in PositionNames(qs) ensures y in PositionNames(ps) || y == x {
      var a :| 0 <= a < |qs| && qs[a].symbol == y;
      if a < |ps| { assert ps[a].symbol == y; }
    }
  }

  lemma {:induction false} SquashStep(sg: Signature, self: nat, first: nat, j: nat, steps: nat)
    requires j <= steps <= TRUNCATION_MAX + 2 && Before(sg, self, first)
    ensures ShapeOf(Shape(sg, self, SquashPositions(first, j)), SquashFrom(sg.sort, first, j, steps), 0)
            == Some(Accepted(0, 2 * steps, steps))
    decreases steps - j
  {
    var sh := Shape(sg, self, SquashPositions(first, j));
    if j == steps {
      SquashEnd(sh, first, j);
    } else {
      TwoSteps(sh, first, j, SquashFrom(sg.sort, first, j + 1, steps));
      SquashStep(sg, self, first, j + 1, steps);
    }
  }

  lemma TwoSteps(sh: Shape, first: nat, j: nat, rest: Tree)
    requires j < TRUNCATION_MAX + 2 && Before(sh.signature, sh.self, first) && sh.positions == SquashPositions(first, j)
    ensures var b := Sphere(sh.signature.sort, first, j);
            ShapeOf(sh, Pi(Y(first, j), b, Pi(Z(first, j), b, rest)), 0)
            == ShapeOf(sh.(positions := SquashPositions(first, j + 1)), rest, 0)
  {
    var sh', b := Bound(sh, Y(first, j), 0), Sphere(sh.signature.sort, first, j);
    SquashBound(first, j);
    BoundKeeps(sh, first, j, Y(first, j));
    Unreserved(sh, first, Y(first, j));
    Unreserved(sh', first, Z(first, j));
    PositionStep(sh, first, j, Y(first, j), Pi(Z(first, j), b, rest));
    PositionStep(sh', first, j, Z(first, j), rest);
    assert Bound(sh', Z(first, j), 0).positions == SquashPositions(first, j + 1);
  }

  lemma SquashEnd(sh: Shape, first: nat, j: nat)
    requires j <= TRUNCATION_MAX + 2 && sh.positions == SquashPositions(first, j)
    ensures ShapeOf(sh, Sphere(sh.signature.sort, first, j), 0) == Some(Accepted(0, 2 * j, j))
  {
    SquashBound(first, j);
    SphereCube(sh, first, j, 0);
    assert !Sphere(sh.signature.sort, first, j).Pi?;
  }

  lemma Unreserved(sh: Shape, first: nat, x: nat)
    requires Before(sh.signature, sh.self, first) && x >= first && x !in PositionNames(sh.positions)
    ensures !Reserved(sh, x)
  {
  }

  /** The generated squash is accepted, for every modifier within the bound: no data, two
      positions for each of its dimensions. */
  lemma SquashAccepted(sg: Signature, self: nat, first: nat, modifier: nat)
    requires 0 < modifier <= TRUNCATION_MAX + 2 && Before(sg, self, first)
    ensures ShapeOf(Shape(sg, self, []), SquashFrom(sg.sort, first, 0, modifier), 0)
            == Some(Accepted(0, 2 * modifier, modifier))
  {
    SquashStep(sg, self, first, 0, modifier);
  }
}
