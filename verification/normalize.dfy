/** The normaliser: weak-head normalisation by beta reduction (`Value`) and
    full normalisation on top of it (`Reduce`). Neither is guaranteed to
    terminate on ill-typed terms, so both take a recursion bound `fuel` and
    report `OutOfFuel` when it runs out; the monotonicity lemmas show that
    more fuel never changes any other answer. */
module Normalize {
  import Nats
  import opened Syntax
  import opened Errors

  /** No application node anywhere in `e`. */
  predicate AppFree(e: Expr)
  {
    match e
    case App(_, _) => false
    case Lam(_, t, b) => AppFree(t) && AppFree(b)
    case Pi(_, t, b) => AppFree(t) && AppFree(b)
    case U(_) => true
    case Var(_) => true
  }

  /** Depth of the tree of `e`; atoms have height 0. */
  function Height(e: Expr): nat
  {
    match e
    case App(f, a) => 1 + Nats.Max(Height(f), Height(a))
    case Lam(_, t, b) => 1 + Nats.Max(Height(t), Height(b))
    case Pi(_, t, b) => 1 + Nats.Max(Height(t), Height(b))
    case U(_) => 0
    case Var(_) => 0
  }

  // ---------------------------------------------------------------------
  // Weak-head normal form
  // ---------------------------------------------------------------------

  /** Weak-head normal form. Every term other than an application is
      returned unchanged; an application whose head normalises to a lambda
      continues with the instantiated body, and any other head fails with
      `ExpectingALambda`. A successful result is never an application. */
  function Value(fuel: nat, e: Expr): (r: Result<Expr>)
    decreases fuel
    ensures !e.App? ==> r == Ok(e)
    ensures r.Ok? ==> !r.value.App?
  {
    match e
    case App(f, a) =>
      if fuel == 0 then Err(OutOfFuel)
      else
        match Value(fuel - 1, f) {
          case Ok(Lam(_, _, b)) => Value(fuel - 1, Instantiate(b, a))
          case Ok(_) => Err(ExpectingALambda)
          case Err(err) => Err(err)
        }
    case _ => Ok(e)
  }

  /** Fuel only bounds the computation: with more fuel, any outcome other
      than `OutOfFuel` stays the same. */
  lemma {:induction false} ValueFuelMonotone(f: nat, g: nat, e: Expr)
    requires f <= g && Value(f, e) != Err(OutOfFuel)
    ensures Value(g, e) == Value(f, e)
    decreases f
  {
    match e
    case App(fn, a) =>
      ValueFuelMonotone(f - 1, g - 1, fn);
      match Value(f - 1, fn) {
        case Ok(Lam(_, _, b)) => ValueFuelMonotone(f - 1, g - 1, Instantiate(b, a));
        case Ok(_) =>
        case Err(_) =>
      }
    case _ =>
  }

  /** Weak-head normalisation is idempotent. */
  lemma ValueIdempotent(f: nat, g: nat, e: Expr)
    requires Value(f, e).Ok?
    ensures Value(g, Value(f, e).value) == Value(f, e)
  {
  }

  /** The beta rule and the stuck case for applications, at any fuel above
      the one that normalised the head: a lambda head continues with the
      instantiated body, any other head fails with `ExpectingALambda`. */
  lemma ValueApp(f: nat, g: nat, fn: Expr, a: Expr)
    requires f < g && Value(f, fn).Ok?
    ensures Value(f, fn).value.Lam? ==>
      Value(g, App(fn, a)) == Value(g - 1, Instantiate(Value(f, fn).value.body, a))
    ensures !Value(f, fn).value.Lam? ==> Value(g, App(fn, a)) == Err(ExpectingALambda)
  {
    ValueFuelMonotone(f, g - 1, fn);
  }

  /** An application whose head is a variable is rejected rather than kept
      as a neutral term. */
  lemma ValueRejectsNeutral(f: nat, i: nat, a: Expr)
    requires f > 0
    ensures Value(f, App(Var(i), a)) == Err(ExpectingALambda)
  {
  }

  // ---------------------------------------------------------------------
  // Full normal form
  // ---------------------------------------------------------------------

  /** Full normalisation as the source writes it: after weak-head
      normalisation, the parts of a lambda or Pi are normalised, and in
      every other case the ORIGINAL term is returned rather than its
      weak-head normal form. */
  function ReduceAsWritten(fuel: nat, e: Expr): (r: Result<Expr>)
    decreases fuel
    ensures r.Ok? ==> Value(fuel, e).Ok?
    ensures r.Ok? && !Value(fuel, e).value.Lam? && !Value(fuel, e).value.Pi? ==> r.value == e
    ensures r.Ok? && Value(fuel, e).value.Lam? ==>
      r.value.Lam? && r.value.name == Value(fuel, e).value.name
    ensures r.Ok? && Value(fuel, e).value.Pi? ==>
      r.value.Pi? && r.value.name == Value(fuel, e).value.name
  {
    if fuel == 0 then Err(OutOfFuel)
    else
      var w :- Value(fuel, e);
      match w
      case Lam(x, t, b) =>
        var t' :- ReduceAsWritten(fuel - 1, t);
        var b' :- ReduceAsWritten(fuel - 1, b);
        Ok(Lam(x, t', b'))
      case Pi(x, t, b) =>
        var t' :- ReduceAsWritten(fuel - 1, t);
        var b' :- ReduceAsWritten(fuel - 1, b);
        Ok(Pi(x, t', b'))
      case _ => Ok(e)
  }

  /** On terms without applications, where no beta step happens, the
      normaliser as written agrees with `Reduce` and returns the term. */
  lemma {:induction false} ReduceAsWrittenAppFree(fuel: nat, e: Expr)
    requires AppFree(e) && Height(e) < fuel
    ensures ReduceAsWritten(fuel, e) == Reduce(fuel, e) == Ok(e)
  {
    ReduceAppFree(fuel, e);
    match e
    case Lam(_, t, b) => ReduceAsWrittenAppFree(fuel - 1, t); ReduceAsWrittenAppFree(fuel - 1, b);
    case Pi(_, t, b) => ReduceAsWrittenAppFree(fuel - 1, t); ReduceAsWrittenAppFree(fuel - 1, b);
    case U(_) =>
    case Var(_) =>
  }

  /** A redex whose weak-head normal form is a universe comes back from
      `ReduceAsWritten` unreduced, while `Reduce` gives the universe. */
  lemma ReduceAsWrittenKeepsRedex()
    ensures var e := App(Lam("x", U(0), Var(0)), U(0));
      ReduceAsWritten(1, e) == Ok(e) && !AppFree(e) && Reduce(1, e) == Ok(U(0))
  {
    var e := App(Lam("x", U(0), Var(0)), U(0));
    assert Instantiate(Var(0), U(0)) == U(0);
    assert Value(1, e) == Ok(U(0));
  }

  /** Full normalisation: the weak-head normal form, finished by
      `ReduceWhnf`. It succeeds only where `value` does; a weak-head normal
      form that is a universe or variable is the result itself, and one that
      is a lambda or Pi keeps its constructor and binder name. A successful
      result contains no application and is no higher than the fuel allows. */
  function Reduce(fuel: nat, e: Expr): (r: Result<Expr>)
    decreases fuel, 1
    ensures r.Ok? ==> Value(fuel, e).Ok?
    ensures fuel > 0 && Value(fuel, e).Ok? && !Value(fuel, e).value.Lam? && !Value(fuel, e).value.Pi?
      ==> r == Value(fuel, e)
    ensures r.Ok? && Value(fuel, e).value.Lam? ==>
      r.value.Lam? && r.value.name == Value(fuel, e).value.name
    ensures r.Ok? && Value(fuel, e).value.Pi? ==>
      r.value.Pi? && r.value.name == Value(fuel, e).value.name
    ensures r.Ok? ==> AppFree(r.value) && Height(r.value) < fuel
  {
    if fuel == 0 then Err(OutOfFuel)
    else
      var w :- Value(fuel, e);
      ReduceWhnf(fuel, w)
  }

  /** Normalises the parts of a weak-head normal form: a lambda or Pi keeps
      its constructor and name, with its type and body replaced by their
      full normal forms; a universe or variable is already normal. (A weak-head
      normal form is never an application, so the source's branch for one is
      unreachable and absent here.) */
  function ReduceWhnf(fuel: nat, w: Expr): (r: Result<Expr>)
    requires fuel > 0 && !w.App?
    decreases fuel, 0
    ensures !w.Lam? && !w.Pi? ==> r == Ok(w)
    ensures r.Ok? && w.Lam? ==> r.value.Lam? && r.value.name == w.name
    ensures r.Ok? && w.Pi? ==> r.value.Pi? && r.value.name == w.name
    ensures r.Ok? ==> AppFree(r.value) && Height(r.value) < fuel
  {
    match w
    case Lam(x, t, b) =>
      var t' :- Reduce(fuel - 1, t);
      var b' :- Reduce(fuel - 1, b);
      Ok(Lam(x, t', b'))
    case Pi(x, t, b) =>
      var t' :- Reduce(fuel - 1, t);
      var b' :- Reduce(fuel - 1, b);
      Ok(Pi(x, t', b'))
    case _ => Ok(w)
  }

  /** The parts of a normalised lambda or Pi are the full normal forms of
      the parts of its weak-head normal form. */
  lemma ReduceBinderParts(fuel: nat, e: Expr)
    requires Reduce(fuel, e).Ok?
    requires Value(fuel, e).value.Lam? || Value(fuel, e).value.Pi?
    ensures var w := Value(fuel, e).value;
      var r := Reduce(fuel, e).value;
      Reduce(fuel - 1, w.ty) == Ok(r.ty) && Reduce(fuel - 1, w.body) == Ok(r.body)
  {
  }

  /** A term without applications is its own full normal form, given fuel
      beyond its height. */
  lemma {:induction false} ReduceAppFree(fuel: nat, e: Expr)
    requires AppFree(e) && Height(e) < fuel
    ensures Reduce(fuel, e) == Ok(e)
  {
    match e
    case Lam(_, t, b) => ReduceAppFree(fuel - 1, t); ReduceAppFree(fuel - 1, b);
    case Pi(_, t, b) => ReduceAppFree(fuel - 1, t); ReduceAppFree(fuel - 1, b);
    case U(_) =>
    case Var(_) =>
  }

  /** Full normalisation is idempotent, at the same fuel. */
  lemma ReduceIdempotent(fuel: nat, e: Expr)
    requires Reduce(fuel, e).Ok?
    ensures Reduce(fuel, Reduce(fuel, e).value) == Reduce(fuel, e)
    ensures Value(fuel, Reduce(fuel, e).value) == Reduce(fuel, e)
  {
    ReduceAppFree(fuel, Reduce(fuel, e).value);
  }

  /** With more fuel, any outcome of `Reduce` other than `OutOfFuel` stays
      the same. */
  lemma {:induction false} ReduceFuelMonotone(f: nat, g: nat, e: Expr)
    requires f <= g && Reduce(f, e) != Err(OutOfFuel)
    ensures Reduce(g, e) == Reduce(f, e)
    decreases f, 1
  {
    ValueFuelMonotone(f, g, e);
    var w := Value(f, e);
    if w.Ok? {
      ReduceWhnfFuelMonotone(f, g, w.value);
    }
  }

  lemma {:induction false} ReduceWhnfFuelMonotone(f: nat, g: nat, w: Expr)
    requires 0 < f <= g && !w.App? && ReduceWhnf(f, w) != Err(OutOfFuel)
    ensures ReduceWhnf(g, w) == ReduceWhnf(f, w)
    decreases f, 0
  {
    if w.Lam? || w.Pi? {
      ReduceFuelMonotone(f - 1, g - 1, w.ty);
      if Reduce(f - 1, w.ty).Ok? {
        ReduceFuelMonotone(f - 1, g - 1, w.body);
      }
    }
  }
}
