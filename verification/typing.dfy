/** The type checker: infers the type of an expression in a context, over a
    hierarchy of universes `U(l) : U(l + 1)`. Types are compared up to
    binder names and are never normalised. The recursion is not structural
    (an application re-checks the domain taken from the function's type),
    so the type checker takes a recursion bound `fuel`. */
module Typing {
  import Nats
  import Seqs
  import opened Syntax
  import opened Errors

  /** The number of entries of a context. */
  function Depth(ctx: Context): nat
  {
    |Seqs.Elements(ctx)|
  }

  /** Every stored type is in scope of the entries below it. */
  predicate WellScoped(ctx: Context)
  {
    forall k :: 0 <= k < |Seqs.Elements(ctx)| ==>
      Closed(Seqs.Elements(ctx)[k].1, |Seqs.Elements(ctx)| - 1 - k)
  }

  /** The type of `e` in `ctx`, or the first error met.
      - `U(l)` has type `U(l + 1)`.
      - `Var(i)` has the type stored at entry `i`, shifted up by `i + 1`;
        past the end of the context it fails with `OutOfBounds`.
      - binders and applications follow `CheckLam`, `CheckPi`, `CheckApp`.
      A term that checks has all its variables in scope. */
  function TypeCheck(fuel: nat, e: Expr, ctx: Context): (r: Result<Expr>)
    decreases fuel, 2
    ensures r.Ok? ==> Closed(e, Depth(ctx))
    ensures r.Ok? && e.Lam? ==> r.value.Pi? && r.value.name == e.name && r.value.ty == e.ty
    ensures r.Ok? && e.Pi? ==> r.value.U?
  {
    if fuel == 0 then Err(OutOfFuel)
    else
      match e
      case App(f, a) => CheckApp(fuel, f, a, ctx)
      case Lam(x, t, b) => CheckLam(fuel, x, t, b, ctx)
      case Pi(x, t, b) => CheckPi(fuel, x, t, b, ctx)
      case U(l) => Ok(U(Nats.Add(l, 1)))
      case Var(i) =>
        var entry := Seqs.Lookup(i, ctx);
        if entry.None? then Err(OutOfBounds(i))
        else Ok(Shift(entry.value.1, Nats.ToInt(i) + 1, 0))
  }

  /** The application rule: `f` is checked first, then `CheckArgument`. */
  function CheckApp(fuel: nat, f: Expr, a: Expr, ctx: Context): (r: Result<Expr>)
    requires fuel > 0
    decreases fuel, 1
    ensures r.Ok? ==> Closed(f, Depth(ctx)) && Closed(a, Depth(ctx))
  {
    var funType :- TypeCheck(fuel - 1, f, ctx);
    CheckArgument(fuel, funType, a, ctx)
  }

  /** The application rule once the type of the function is known: it must
      be literally a `Pi` (it is not normalised), or the check fails with
      `ExpectingAFunction`; then `a` is checked, the domain is checked, and
      `ApplyPi` finishes. */
  function CheckArgument(fuel: nat, funType: Expr, a: Expr, ctx: Context): (r: Result<Expr>)
    requires fuel > 0
    decreases fuel, 0
    ensures r.Ok? ==> funType.Pi? && Closed(a, Depth(ctx))
    ensures !funType.Pi? ==> r == Err(ExpectingAFunction(funType))
  {
    if !funType.Pi? then Err(ExpectingAFunction(funType))
    else
      var argType :- TypeCheck(fuel - 1, a, ctx);
      var domType :- TypeCheck(fuel - 1, funType.ty, ctx);
      ApplyPi(funType, a, argType, domType)
  }

  /** The last steps of the application rule, once the function's type
      `Pi(_, dom, cod)`, the argument's type and the domain's type are known:
      the domain must have a universe as type, the argument's type must equal
      the domain up to names, and the result is `cod` instantiated with the
      argument. */
  function ApplyPi(funType: Expr, arg: Expr, argType: Expr, domType: Expr): (r: Result<Expr>)
    requires funType.Pi?
    ensures r.Ok? <==> domType.U? && Equiv(argType, funType.ty)
    ensures r.Ok? ==> r.value == Instantiate(funType.body, arg)
    ensures !domType.U? ==> r == Err(ExpectingAType(funType.ty, domType))
  {
    if !domType.U? then Err(ExpectingAType(funType.ty, domType))
    else if !Equiv(argType, funType.ty) then Err(ArgumentMismatch(funType.ty, arg, argType))
    else Ok(Instantiate(funType.body, arg))
  }

  /** The lambda rule: the parameter type must have a universe as type, or
      the check fails with `ExpectingAType`, whose message displays that
      type in both of its places; the type is then
      `Pi(x, t, B)` with `B` the type of the body once `(x, t)` is pushed. */
  function CheckLam(fuel: nat, x: string, t: Expr, b: Expr, ctx: Context): (r: Result<Expr>)
    requires fuel > 0
    decreases fuel, 0
    ensures r.Ok? ==> Closed(t, Depth(ctx)) && Closed(b, Depth(ctx) + 1)
    ensures r.Ok? ==> r.value.Pi? && r.value.name == x && r.value.ty == t
  {
    var tType :- TypeCheck(fuel - 1, t, ctx);
    if !tType.U? then Err(ExpectingAType(tType, tType))
    else
      var bType :- TypeCheck(fuel - 1, b, Seqs.Cons((x, t), ctx));
      Ok(Pi(x, t, bType))
  }

  /** The Pi rule: the domain and, once `(x, t)` is pushed, the codomain
      must have universes `U(l1)` and `U(l2)` as types; the type is then
      `U(max(l1, l2))`. Otherwise the check fails with `PiAssertion`, whose
      message displays both types in the outer context: the codomain's type
      belongs to the inner one, and when it mentions a variable out of the
      outer context's scope, displaying it fails first with `OutOfBounds`. */
  function CheckPi(fuel: nat, x: string, t: Expr, b: Expr, ctx: Context): (r: Result<Expr>)
    requires fuel > 0
    decreases fuel, 0
    ensures r.Ok? ==> Closed(t, Depth(ctx)) && Closed(b, Depth(ctx) + 1)
    ensures r.Ok? ==> r.value.U?
  {
    var tType :- TypeCheck(fuel - 1, t, ctx);
    var bType :- TypeCheck(fuel - 1, b, Seqs.Cons((x, t), ctx));
    if tType.U? && bType.U? then Ok(U(Nats.Max(tType.level, bType.level)))
    else if Unbound(tType, Depth(ctx)).Some? then Err(OutOfBounds(Unbound(tType, Depth(ctx)).value))
    else if Unbound(bType, Depth(ctx)).Some? then Err(OutOfBounds(Unbound(bType, Depth(ctx)).value))
    else Err(PiAssertion(tType, bType))
  }

  // ---------------------------------------------------------------------
  // The typing rules, stated against the context's entries
  // ---------------------------------------------------------------------

  /** The universe rule: `U(l) : U(l + 1)`. */
  lemma TypeCheckUniverse(fuel: nat, l: nat, ctx: Context)
    requires fuel > 0
    ensures TypeCheck(fuel, U(l), ctx) == Ok(U(l + 1))
  {
  }

  /** The variable rule: a variable is in bounds exactly when it indexes an
      entry, and then its type is that entry's type shifted up by `i + 1`,
      past the entries above it and the entry itself. */
  lemma TypeCheckVar(fuel: nat, i: nat, ctx: Context)
    requires fuel > 0
    ensures i >= Depth(ctx) <==> TypeCheck(fuel, Var(i), ctx) == Err(OutOfBounds(i))
    ensures i < Depth(ctx) ==>
      TypeCheck(fuel, Var(i), ctx) == Ok(Shift(Seqs.Elements(ctx)[i].1, i + 1, 0))
  {
  }

  /** The application rule: `f` is checked first and its type must itself
      be a `Pi` (it is not normalised), or the check fails with
      `ExpectingAFunction`; then the argument and the domain are checked, in
      that order, and the first failure is the result. The application
      checks exactly when the domain has a universe as type and the
      argument's type equals the domain up to names, and its type is then
      the codomain instantiated with the argument. */
  lemma TypeCheckApp(fuel: nat, f: Expr, a: Expr, ctx: Context)
    requires fuel > 0
    ensures var funType := TypeCheck(fuel - 1, f, ctx);
      var r := TypeCheck(fuel, App(f, a), ctx);
      && (funType.Err? ==> r == Err(funType.error))
      && (funType.Ok? && !funType.value.Pi? ==> r == Err(ExpectingAFunction(funType.value)))
    ensures var funType := TypeCheck(fuel - 1, f, ctx);
      var argType := TypeCheck(fuel - 1, a, ctx);
      var r := TypeCheck(fuel, App(f, a), ctx);
      funType.Ok? && funType.value.Pi? ==>
        var domType := TypeCheck(fuel - 1, funType.value.ty, ctx);
        && (argType.Err? ==> r == Err(argType.error))
        && (argType.Ok? && domType.Err? ==> r == Err(domType.error))
        && (argType.Ok? && domType.Ok? && !domType.value.U? ==>
              r == Err(ExpectingAType(funType.value.ty, domType.value)))
        && (argType.Ok? && domType.Ok? && domType.value.U? && !Equiv(argType.value, funType.value.ty) ==>
              r == Err(ArgumentMismatch(funType.value.ty, a, argType.value)))
    ensures var funType := TypeCheck(fuel - 1, f, ctx);
      var r := TypeCheck(fuel, App(f, a), ctx);
      r.Ok? <==>
        && funType.Ok? && funType.value.Pi?
        && TypeCheck(fuel - 1, funType.value.ty, ctx).Ok?
        && TypeCheck(fuel - 1, funType.value.ty, ctx).value.U?
        && TypeCheck(fuel - 1, a, ctx).Ok?
        && Equiv(TypeCheck(fuel - 1, a, ctx).value, funType.value.ty)
    ensures var funType := TypeCheck(fuel - 1, f, ctx);
      var r := TypeCheck(fuel, App(f, a), ctx);
      r.Ok? ==> r.value == Instantiate(funType.value.body, a)
  {
    assert TypeCheck(fuel, App(f, a), ctx) == CheckApp(fuel, f, a, ctx);
    if TypeCheck(fuel - 1, f, ctx).Ok? {
      assert CheckApp(fuel, f, a, ctx) == CheckArgument(fuel, TypeCheck(fuel - 1, f, ctx).value, a, ctx);
    }
  }

  /** The application rule read forwards: from the types of the function,
      the argument and the domain, the type of the application. */
  lemma AppRule(fuel: nat, f: Expr, a: Expr, ctx: Context, funType: Expr, argType: Expr, level: nat)
    requires fuel > 0 && funType.Pi? && Equiv(argType, funType.ty)
    requires TypeCheck(fuel - 1, f, ctx) == Ok(funType)
    requires TypeCheck(fuel - 1, a, ctx) == Ok(argType)
    requires TypeCheck(fuel - 1, funType.ty, ctx) == Ok(U(level))
    ensures TypeCheck(fuel, App(f, a), ctx) == Ok(Instantiate(funType.body, a))
  {
    TypeCheckApp(fuel, f, a, ctx);
  }
  /** The mismatch rule: from `f : Pi(_, dom, cod)`, `a : dom'` and
      `dom : U(l)`, where `dom'` differs from `dom` beyond binder names,
      the application `f a` fails with the argument mismatch showing `dom`,
      `a` and `dom'`. */
  lemma MismatchRule(fuel: nat, f: Expr, a: Expr, ctx: Context, funType: Expr, argType: Expr, level: nat)
    requires fuel > 0 && funType.Pi? && !Equiv(argType, funType.ty)
    requires TypeCheck(fuel - 1, f, ctx) == Ok(funType)
    requires TypeCheck(fuel - 1, a, ctx) == Ok(argType)
    requires TypeCheck(fuel - 1, funType.ty, ctx) == Ok(U(level))
    ensures TypeCheck(fuel, App(f, a), ctx) == Err(ArgumentMismatch(funType.ty, a, argType))
  {
    TypeCheckApp(fuel, f, a, ctx);
  }


  /** The binder rules: a lambda checks exactly when its parameter type has
      a universe as type and its body checks with the parameter pushed, and
      then has type `Pi(x, t, B)`; a Pi checks exactly when both parts have
      universes as types, and then has type `U(max(l1, l2))`. A failure of a
      part is passed on, the parameter type's first. A lambda whose parameter
      type is not typed by a universe fails with `ExpectingAType`; a Pi with a
      part not typed by a universe fails with `PiAssertion`, or with
      `OutOfBounds` when displaying either type in the outer context fails. */
  lemma TypeCheckBinders(fuel: nat, x: string, t: Expr, b: Expr, ctx: Context)
    requires fuel > 0
    ensures var tType := TypeCheck(fuel - 1, t, ctx);
      var bType := TypeCheck(fuel - 1, b, Seqs.Cons((x, t), ctx));
      var lam := TypeCheck(fuel, Lam(x, t, b), ctx);
      var pi := TypeCheck(fuel, Pi(x, t, b), ctx);
      && (tType.Err? ==> lam == pi == Err(tType.error))
      && (tType.Ok? && tType.value.U? && bType.Err? ==> lam == Err(bType.error))
      && (tType.Ok? && bType.Err? ==> pi == Err(bType.error))
      && (lam.Ok? <==> tType.Ok? && tType.value.U? && bType.Ok?)
      && (lam.Ok? ==> lam.value == Pi(x, t, bType.value))
      && (tType.Ok? && !tType.value.U? ==> lam == Err(ExpectingAType(tType.value, tType.value)))
      && (pi.Ok? <==> tType.Ok? && tType.value.U? && bType.Ok? && bType.value.U?)
      && (pi.Ok? ==> pi.value == U(Nats.Max(tType.value.level, bType.value.level)))
      && (tType.Ok? && bType.Ok? && !(tType.value.U? && bType.value.U?) ==>
            pi == if !Closed(tType.value, Depth(ctx)) then Err(OutOfBounds(Unbound(tType.value, Depth(ctx)).value))
                  else if !Closed(bType.value, Depth(ctx)) then Err(OutOfBounds(Unbound(bType.value, Depth(ctx)).value))
                  else Err(PiAssertion(tType.value, bType.value)))
  {
    assert TypeCheck(fuel, Lam(x, t, b), ctx) == CheckLam(fuel, x, t, b, ctx);
    assert TypeCheck(fuel, Pi(x, t, b), ctx) == CheckPi(fuel, x, t, b, ctx);
  }

  // ---------------------------------------------------------------------
  // Fuel and scope
  // ---------------------------------------------------------------------

  /** With more fuel, any outcome other than `OutOfFuel` stays the same. */
  lemma {:induction false} TypeCheckFuelMonotone(f: nat, g: nat, e: Expr, ctx: Context)
    requires f <= g && TypeCheck(f, e, ctx) != Err(OutOfFuel)
    ensures TypeCheck(g, e, ctx) == TypeCheck(f, e, ctx)
    decreases f, 2
  {
    match e
    case App(fn, a) => AppFuelMonotone(f, g, fn, a, ctx);
    case Lam(x, t, b) => LamFuelMonotone(f, g, x, t, b, ctx);
    case Pi(x, t, b) => PiFuelMonotone(f, g, x, t, b, ctx);
    case U(_) =>
    case Var(_) =>
  }

  lemma {:induction false} AppFuelMonotone(f: nat, g: nat, fn: Expr, a: Expr, ctx: Context)
    requires 0 < f <= g && CheckApp(f, fn, a, ctx) != Err(OutOfFuel)
    ensures CheckApp(g, fn, a, ctx) == CheckApp(f, fn, a, ctx)
    decreases f, 1
  {
    var funType := TypeCheck(f - 1, fn, ctx);
    TypeCheckFuelMonotone(f - 1, g - 1, fn, ctx);
    if funType.Ok? {
      ArgumentFuelMonotone(f, g, funType.value, a, ctx);
    }
  }

  lemma {:induction false} ArgumentFuelMonotone(f: nat, g: nat, funType: Expr, a: Expr, ctx: Context)
    requires 0 < f <= g && CheckArgument(f, funType, a, ctx) != Err(OutOfFuel)
    ensures CheckArgument(g, funType, a, ctx) == CheckArgument(f, funType, a, ctx)
    decreases f, 0
  {
    if funType.Pi? {
      TypeCheckFuelMonotone(f - 1, g - 1, a, ctx);
      if TypeCheck(f - 1, a, ctx).Ok? {
        TypeCheckFuelMonotone(f - 1, g - 1, funType.ty, ctx);
      }
    }
  }

  lemma {:induction false} LamFuelMonotone(f: nat, g: nat, x: string, t: Expr, b: Expr, ctx: Context)
    requires 0 < f <= g && CheckLam(f, x, t, b, ctx) != Err(OutOfFuel)
    ensures CheckLam(g, x, t, b, ctx) == CheckLam(f, x, t, b, ctx)
    decreases f, 0
  {
    TypeCheckFuelMonotone(f - 1, g - 1, t, ctx);
    var tType := TypeCheck(f - 1, t, ctx);
    if tType.Ok? && tType.value.U? {
      TypeCheckFuelMonotone(f - 1, g - 1, b, Seqs.Cons((x, t), ctx));
    }
  }

  lemma {:induction false} PiFuelMonotone(f: nat, g: nat, x: string, t: Expr, b: Expr, ctx: Context)
    requires 0 < f <= g && CheckPi(f, x, t, b, ctx) != Err(OutOfFuel)
    ensures CheckPi(g, x, t, b, ctx) == CheckPi(f, x, t, b, ctx)
    decreases f, 0
  {
    TypeCheckFuelMonotone(f - 1, g - 1, t, ctx);
    if TypeCheck(f - 1, t, ctx).Ok? {
      TypeCheckFuelMonotone(f - 1, g - 1, b, Seqs.Cons((x, t), ctx));
    }
  }

  /** Pushing an entry whose type is in scope keeps a context well scoped. */
  lemma PushWellScoped(x: string, t: Expr, ctx: Context)
    requires WellScoped(ctx) && Closed(t, Depth(ctx))
    ensures WellScoped(Seqs.Cons((x, t), ctx)) && Depth(Seqs.Cons((x, t), ctx)) == Depth(ctx) + 1
  {
    var es := Seqs.Elements(ctx);
    var es' := Seqs.Elements(Seqs.Cons((x, t), ctx));
    assert es' == [(x, t)] + es;
    forall k | 0 <= k < |es'|
      ensures Closed(es'[k].1, |es'| - 1 - k)
    {
      if k > 0 {
        assert es'[k] == es[k - 1];
      }
    }
  }

  /** In a well-scoped context, an inferred type is in scope too. */
  lemma {:induction false} TypeCheckTypeScoped(fuel: nat, e: Expr, ctx: Context)
    requires WellScoped(ctx) && TypeCheck(fuel, e, ctx).Ok?
    ensures Closed(TypeCheck(fuel, e, ctx).value, Depth(ctx))
    decreases fuel
  {
    match e
    case App(f, a) =>
      TypeCheckTypeScoped(fuel - 1, f, ctx);
      var funType := TypeCheck(fuel - 1, f, ctx).value;
      assert TypeCheck(fuel, e, ctx) == CheckArgument(fuel, funType, a, ctx);
      InstantiateClosed(funType.body, a, Depth(ctx));
    case Lam(x, t, b) =>
      PushWellScoped(x, t, ctx);
      TypeCheckTypeScoped(fuel - 1, b, Seqs.Cons((x, t), ctx));
    case Pi(_, _, _) =>
    case U(_) =>
    case Var(i) =>
      var es := Seqs.Elements(ctx);
      ShiftUpClosed(es[i].1, i + 1, 0, |es| - 1 - i);
  }
}
