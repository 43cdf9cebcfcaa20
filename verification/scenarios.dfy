/** Concrete typing derivations: the examples the repository ships with,
    and small terms that show how the type checker fails. */
module Scenarios {
  import Seqs
  import opened Syntax
  import opened Errors
  import opened Typing
  import Normalize

  /** The polymorphic identity `λ (A : U0). λ (a : A). a` has type
      `Π (A : U0). Π (a : A). A` in the empty context. */
  lemma Identity()
    ensures TypeCheck(3, Lam("A", U(0), Lam("a", Var(0), Var(0))), Seqs.Nil)
      == Ok(Pi("A", U(0), Pi("a", Var(0), Var(1))))
  {
    var inner := Seqs.Cons(("A", U(0)), Seqs.Nil);
    assert TypeCheck(1, Var(0), inner) == Ok(U(0));
    assert TypeCheck(1, Var(0), Seqs.Cons(("a", Var(0)), inner)) == Ok(Var(1));
  }

  /** Composition of `bc : B → C` and `ab : A → B` in a context of three
      universes-typed carriers `C`, `B`, `A` (newest first) has type
      `(B → C) → (A → B) → A → C`. */
  lemma Composition()
    ensures var ctx := Seqs.FromList([("C", U(0)), ("B", U(0)), ("A", U(0))]);
      var e := Lam("bc", Pi("_", Var(1), Var(1)),
               Lam("ab", Pi("_", Var(3), Var(3)),
               Lam("a", Var(4), App(Var(2), App(Var(1), Var(0))))));
      TypeCheck(6, e, ctx)
        == Ok(Pi("bc", Pi("_", Var(1), Var(1)),
              Pi("ab", Pi("_", Var(3), Var(3)),
              Pi("a", Var(4), Var(3)))))
  {
    var c0 := Seqs.Cons(("C", U(0)), Seqs.Cons(("B", U(0)), Seqs.Cons(("A", U(0)), Seqs.Nil)));
    assert Seqs.FromList([("C", U(0)), ("B", U(0)), ("A", U(0))]) == c0;
    var c1 := Seqs.Cons(("bc", Pi("_", Var(1), Var(1))), c0);
    var c2 := Seqs.Cons(("ab", Pi("_", Var(3), Var(3))), c1);
    var c3 := Seqs.Cons(("a", Var(4)), c2);
    assert TypeCheck(3, Pi("_", Var(1), Var(1)), c0) == Ok(U(0));
    assert TypeCheck(2, Pi("_", Var(3), Var(3)), c1) == Ok(U(0));
    assert TypeCheck(1, Var(4), c2) == Ok(U(0));
    assert TypeCheck(2, Var(2), c3) == Ok(Pi("_", Var(4), Var(4)));
    assert TypeCheck(1, Var(1), c3) == Ok(Pi("_", Var(5), Var(5)));
    assert TypeCheck(1, Var(0), c3) == Ok(Var(5));
    assert TypeCheck(1, Var(5), c3) == Ok(U(0));
    assert TypeCheck(2, App(Var(1), Var(0)), c3) == Ok(Var(4));
    assert TypeCheck(1, Var(4), c3) == Ok(U(0));
    assert TypeCheck(3, App(Var(2), App(Var(1), Var(0))), c3) == Ok(Var(3));
  }

  /** The type of the applied term is not normalised: a function whose
      stored type is a redex that reduces to a `Pi` is rejected, while the
      same function stored with the reduced type is accepted. */
  lemma UnnormalisedFunctionType()
    ensures var redex := App(Lam("X", U(2), Var(0)), Pi("_", U(1), U(1)));
      && TypeCheck(3, App(Var(0), U(0)), Seqs.Cons(("f", redex), Seqs.Nil))
           == Err(ExpectingAFunction(redex))
      && TypeCheck(3, App(Var(0), U(0)), Seqs.Cons(("f", Pi("_", U(1), U(1))), Seqs.Nil))
           == Ok(U(1))
  {
    var redex := App(Lam("X", U(2), Var(0)), Pi("_", U(1), U(1)));
    assert Shift(redex, 1, 0) == redex;
    assert Shift(Pi("_", U(1), U(1)), 1, 0) == Pi("_", U(1), U(1));
    assert Instantiate(U(1), U(0)) == U(1);
  }

  /** Argument types are compared up to binder names, and a real mismatch
      is reported with the expected domain, the argument and its type. */
  lemma ArgumentTypes()
    ensures var ctx := Seqs.Cons(("g", Pi("_", Pi("x", U(0), U(0)), U(0))), Seqs.Nil);
      && TypeCheck(3, App(Var(0), Lam("y", U(0), Var(0))), ctx) == Ok(U(0))
      && TypeCheck(3, App(Var(0), U(0)), ctx)
           == Err(ArgumentMismatch(Pi("x", U(0), U(0)), U(0), U(1)))
  {
    var ctx := Seqs.Cons(("g", Pi("_", Pi("x", U(0), U(0)), U(0))), Seqs.Nil);
    assert TypeCheck(2, Var(0), ctx) == Ok(Pi("_", Pi("x", U(0), U(0)), U(0)));
    assert TypeCheck(1, Var(0), Seqs.Cons(("y", U(0)), ctx)) == Ok(U(0));
    assert TypeCheck(2, Lam("y", U(0), Var(0)), ctx) == Ok(Pi("y", U(0), U(0)));
    assert TypeCheck(2, Pi("x", U(0), U(0)), ctx) == Ok(U(1));
    assert Instantiate(U(0), Lam("y", U(0), Var(0))) == U(0);
  }

  /** A parameter whose type is not a universe is rejected. */
  lemma ParameterNotAType()
    ensures TypeCheck(3, Lam("x", Lam("y", U(0), U(0)), Var(0)), Seqs.Nil)
      == Err(ExpectingAType(Pi("y", U(0), U(1)), Pi("y", U(0), U(1))))
  {
    assert TypeCheck(1, U(0), Seqs.Cons(("y", U(0)), Seqs.Nil)) == Ok(U(1));
  }

  /** A well-typed open term the normaliser rejects: `f X` checks in a
      context declaring `X : U0` and `f : U0 → U0` (newest first), but
      `value` fails on it with "expecting a lambda", because its head is a
      variable. */
  lemma WellTypedNeutral(fuel: nat)
    requires fuel > 0
    ensures var ctx := Seqs.FromList([("X", U(0)), ("f", Pi("_", U(0), U(0)))]);
      && TypeCheck(3, App(Var(1), Var(0)), ctx) == Ok(U(0))
      && Normalize.Value(fuel, App(Var(1), Var(0))) == Err(ExpectingALambda)
  {
    var ctx := Seqs.Cons(("X", U(0)), Seqs.Cons(("f", Pi("_", U(0), U(0))), Seqs.Nil));
    assert Seqs.FromList([("X", U(0)), ("f", Pi("_", U(0), U(0)))]) == ctx;
    assert TypeCheck(2, Var(1), ctx) == Ok(Pi("_", U(0), U(0)));
    assert TypeCheck(2, Var(0), ctx) == Ok(U(0));
    Normalize.ValueRejectsNeutral(fuel, 1, Var(0));
  }

  /** A Pi whose codomain is not typed by a universe is reported with both
      types displayed in the outer context. When the codomain's type mentions
      the bound variable, displaying it runs out of the outer context first;
      otherwise the assertion message itself is the error. */
  lemma PiNotATypeFamily()
    ensures TypeCheck(2, Pi("x", Var(0), Var(0)), Seqs.Cons(("A", U(0)), Seqs.Nil))
      == Err(OutOfBounds(1))
    ensures TypeCheck(3, Pi("A", U(0), Lam("a", Var(0), Var(0))), Seqs.Nil)
      == Err(OutOfBounds(0))
    ensures TypeCheck(3, Pi("x", Lam("y", U(0), U(0)), U(0)), Seqs.Nil)
      == Err(PiAssertion(Pi("y", U(0), U(1)), U(1)))
  {
    var cA := Seqs.Cons(("A", U(0)), Seqs.Nil);
    assert TypeCheck(1, Var(0), cA) == Ok(U(0));
    assert TypeCheck(1, Var(0), Seqs.Cons(("x", Var(0)), cA)) == Ok(Var(1));
    assert TypeCheck(1, Var(0), Seqs.Cons(("a", Var(0)), cA)) == Ok(Var(1));
    assert TypeCheck(2, Lam("a", Var(0), Var(0)), cA) == Ok(Pi("a", Var(0), Var(1)));
    assert TypeCheck(1, U(0), Seqs.Cons(("y", U(0)), Seqs.Nil)) == Ok(U(1));
    assert TypeCheck(2, Lam("y", U(0), U(0)), Seqs.Nil) == Ok(Pi("y", U(0), U(1)));
  }

  /** The entries `snd`, `fst`, `pair` and `Pair` of the pair example,
      newest first. */
  const PairEntries: seq<(string, Expr)> :=
    [ ("snd", Pi("A", U(0), Pi("B", U(0), Pi("_", App(App(Var(4), Var(1)), Var(0)), Var(1))))),
      ("fst", Pi("A", U(0), Pi("B", U(0), Pi("_", App(App(Var(3), Var(1)), Var(0)), Var(2))))),
      ("pair", Pi("A", U(0), Pi("B", U(0), Pi("_", Var(1), Pi("_", Var(1), App(App(Var(4), Var(3)), Var(2))))))),
      ("Pair", Pi("_", U(0), Pi("_", U(0), U(0)))) ]

  /** `Pair A B`, the type of `p`, under `A` and `B`. */
  const PairAB: Expr := App(App(Var(5), Var(1)), Var(0))

  /** `snd A B p` and `fst A B p` under `A`, `B` and `p`. */
  const SndP: Expr := App(App(App(Var(3), Var(2)), Var(1)), Var(0))
  const FstP: Expr := App(App(App(Var(4), Var(2)), Var(1)), Var(0))

  /** The body of the swap, `pair B A (snd A B p) (fst A B p)`. */
  const SwapBody: Expr := App(App(App(App(Var(5), Var(1)), Var(2)), SndP), FstP)

  /** The entries of the context under `A`, `B` and `p`. */
  const SwapEntries: seq<(string, Expr)> := [("p", PairAB), ("B", U(0)), ("A", U(0))] + PairEntries

  /** The pair swap `λ A B (p : Pair A B). pair B A (snd A B p) (fst A B p)`
      in a context declaring `Pair`, `pair`, `fst` and `snd` has type
      `Π A B. Pair A B → Pair B A`, at every fuel from 9 on. The types of
      `fst` and `snd` mention `Pair` applied to variables, and these are
      compared as written. */
  lemma PairSwap(fuel: nat)
    requires fuel >= 9
    ensures TypeCheck(fuel, Lam("A", U(0), Lam("B", U(0), Lam("p", PairAB, SwapBody))),
                      Seqs.FromList(PairEntries))
      == Ok(Pi("A", U(0), Pi("B", U(0), Pi("p", PairAB, App(App(Var(6), Var(1)), Var(2))))))
  {
    var c0 := Seqs.FromList(PairEntries);
    var cA := Seqs.Cons(("A", U(0)), c0);
    var cB := Seqs.Cons(("B", U(0)), cA);
    assert Seqs.Elements(cB) == SwapEntries[1..];
    PairSwapInner(fuel - 2, cB);
    TypeCheckUniverse(fuel - 2, 0, cA);
    TypeCheckBinders(fuel - 1, "B", U(0), Lam("p", PairAB, SwapBody), cA);
    TypeCheckUniverse(fuel - 1, 0, c0);
    TypeCheckBinders(fuel, "A", U(0), Lam("B", U(0), Lam("p", PairAB, SwapBody)), c0);
  }

  /** The innermost lambda of the swap, under `A` and `B`. */
  lemma PairSwapInner(fuel: nat, cB: Context)
    requires fuel >= 7 && Seqs.Elements(cB) == SwapEntries[1..]
    ensures TypeCheck(fuel, Lam("p", PairAB, SwapBody), cB)
      == Ok(Pi("p", PairAB, App(App(Var(6), Var(1)), Var(2))))
  {
    var cP := Seqs.Cons(("p", PairAB), cB);
    assert Seqs.Elements(cP) == SwapEntries;
    PairParameterType(fuel - 1, cB);
    SwapContextTyping(cP);
    PairSwapBodyType(fuel - 1, cP);
    TypeCheckBinders(fuel, "p", PairAB, SwapBody, cB);
  }

  /** `Pair A B` is a type under `A` and `B`. */
  lemma PairParameterType(fuel: nat, cB: Context)
    requires fuel >= 3 && Seqs.Elements(cB) == SwapEntries[1..]
    ensures TypeCheck(fuel, PairAB, cB) == Ok(U(0))
  {
    var pair := Pi("_", U(0), Pi("_", U(0), U(0)));
    TypeCheckVar(fuel - 2, 5, cB);
    assert Shift(pair, 6, 0) == pair;
    TypeCheckVar(fuel - 2, 1, cB);
    AppRule(fuel - 1, Var(5), Var(1), cB, pair, U(0), 1);
    TypeCheckUniverse(fuel - 1, 0, cB);
    AppRule(fuel, App(Var(5), Var(1)), Var(0), cB, Pi("_", U(0), U(0)), U(0), 1);
  }

  /** The body is a `Pair B A`. */
  lemma PairSwapBodyType(fuel: nat, ctx: Context)
    requires fuel >= 6 && SwapTyping(ctx)
    ensures TypeCheck(fuel, SwapBody, ctx) == Ok(App(App(Var(6), Var(1)), Var(2)))
  {
    PairConstructorSnd(fuel - 1, ctx);
    PairFstType(fuel - 1, ctx);
    AppRule(fuel, App(App(App(Var(5), Var(1)), Var(2)), SndP), FstP, ctx,
      Pi("_", Var(2), App(App(Var(7), Var(2)), Var(3))), Var(2), 0);
  }

  /** `pair B A (snd A B p) : A → Pair B A`. */
  lemma PairConstructorSnd(fuel: nat, ctx: Context)
    requires fuel >= 5 && SwapTyping(ctx)
    ensures TypeCheck(fuel, App(App(App(Var(5), Var(1)), Var(2)), SndP), ctx)
      == Ok(Pi("_", Var(2), App(App(Var(7), Var(2)), Var(3))))
  {
    PairConstructorType(fuel - 1, ctx);
    PairSndType(fuel - 1, ctx);
    AppRule(fuel, App(App(Var(5), Var(1)), Var(2)), SndP, ctx,
      Pi("_", Var(1), Pi("_", Var(3), App(App(Var(8), Var(3)), Var(4)))), Var(1), 0);
  }

  /** `pair B A : B → A → Pair B A`. */
  lemma PairConstructorType(fuel: nat, ctx: Context)
    requires fuel >= 3 && SwapTyping(ctx)
    ensures TypeCheck(fuel, App(App(Var(5), Var(1)), Var(2)), ctx)
      == Ok(Pi("_", Var(1), Pi("_", Var(3), App(App(Var(8), Var(3)), Var(4)))))
  {
    PairConstructorHead(fuel - 1, ctx);
    TypeCheckUniverse(fuel - 1, 0, ctx);
    AppRule(fuel, App(Var(5), Var(1)), Var(2), ctx,
      Pi("B", U(0), Pi("_", Var(2), Pi("_", Var(1), App(App(Var(9), Var(4)), Var(2))))), U(0), 1);
  }

  /** `pair B : Π (B' : U0). B → B' → Pair B B'`. */
  lemma PairConstructorHead(fuel: nat, ctx: Context)
    requires fuel >= 2 && SwapTyping(ctx)
    ensures TypeCheck(fuel, App(Var(5), Var(1)), ctx)
      == Ok(Pi("B", U(0), Pi("_", Var(2), Pi("_", Var(1), App(App(Var(9), Var(4)), Var(2))))))
  {
    TypeCheckUniverse(fuel - 1, 0, ctx);
    AppRule(fuel, Var(5), Var(1), ctx, SwapVarTypes[5], U(0), 1);
  }

  /** `snd A B p : B`. */
  lemma PairSndType(fuel: nat, ctx: Context)
    requires fuel >= 4 && SwapTyping(ctx)
    ensures TypeCheck(fuel, SndP, ctx) == Ok(Var(1))
  {
    PairSndPrefix(fuel - 1, ctx);
    PairOfVariables(fuel - 1, ctx);
    AppRule(fuel, App(App(Var(3), Var(2)), Var(1)), Var(0), ctx,
      Pi("_", App(App(Var(6), Var(2)), Var(1)), Var(2)), SwapVarTypes[0], 0);
  }

  /** `snd A`: the projection on the second component, applied to `A`. */
  lemma PairSndHead(fuel: nat, ctx: Context)
    requires fuel >= 2 && SwapTyping(ctx)
    ensures TypeCheck(fuel, App(Var(3), Var(2)), ctx)
      == Ok(Pi("B", U(0), Pi("_", App(App(Var(7), Var(3)), Var(0)), Var(1))))
  {
    TypeCheckUniverse(fuel - 1, 0, ctx);
    AppRule(fuel, Var(3), Var(2), ctx, SwapVarTypes[3], U(0), 1);
  }

  /** `snd A B : Pair A B → B`. */
  lemma PairSndPrefix(fuel: nat, ctx: Context)
    requires fuel >= 3 && SwapTyping(ctx)
    ensures TypeCheck(fuel, App(App(Var(3), Var(2)), Var(1)), ctx)
      == Ok(Pi("_", App(App(Var(6), Var(2)), Var(1)), Var(2)))
  {
    PairSndHead(fuel - 1, ctx);
    TypeCheckUniverse(fuel - 1, 0, ctx);
    AppRule(fuel, App(Var(3), Var(2)), Var(1), ctx,
      Pi("B", U(0), Pi("_", App(App(Var(7), Var(3)), Var(0)), Var(1))), U(0), 1);
  }

  /** `fst A B p : A`. */
  lemma PairFstType(fuel: nat, ctx: Context)
    requires fuel >= 4 && SwapTyping(ctx)
    ensures TypeCheck(fuel, FstP, ctx) == Ok(Var(2))
  {
    PairFstPrefix(fuel - 1, ctx);
    PairOfVariables(fuel - 1, ctx);
    AppRule(fuel, App(App(Var(4), Var(2)), Var(1)), Var(0), ctx,
      Pi("_", App(App(Var(6), Var(2)), Var(1)), Var(3)), SwapVarTypes[0], 0);
  }

  /** `fst A`: the projection on the first component, applied to `A`. */
  lemma PairFstHead(fuel: nat, ctx: Context)
    requires fuel >= 2 && SwapTyping(ctx)
    ensures TypeCheck(fuel, App(Var(4), Var(2)), ctx)
      == Ok(Pi("B", U(0), Pi("_", App(App(Var(7), Var(3)), Var(0)), Var(4))))
  {
    TypeCheckUniverse(fuel - 1, 0, ctx);
    AppRule(fuel, Var(4), Var(2), ctx, SwapVarTypes[4], U(0), 1);
  }

  /** `fst A B : Pair A B → A`. */
  lemma PairFstPrefix(fuel: nat, ctx: Context)
    requires fuel >= 3 && SwapTyping(ctx)
    ensures TypeCheck(fuel, App(App(Var(4), Var(2)), Var(1)), ctx)
      == Ok(Pi("_", App(App(Var(6), Var(2)), Var(1)), Var(3)))
  {
    PairFstHead(fuel - 1, ctx);
    TypeCheckUniverse(fuel - 1, 0, ctx);
    AppRule(fuel, App(Var(4), Var(2)), Var(1), ctx,
      Pi("B", U(0), Pi("_", App(App(Var(7), Var(3)), Var(0)), Var(4))), U(0), 1);
  }

  /** `Pair B A` is a type under `A`, `B` and `p`. */
  lemma PairOfVariables(fuel: nat, ctx: Context)
    requires fuel >= 3 && SwapTyping(ctx)
    ensures TypeCheck(fuel, App(App(Var(6), Var(2)), Var(1)), ctx) == Ok(U(0))
  {
    TypeCheckUniverse(fuel - 2, 0, ctx);
    AppRule(fuel - 1, Var(6), Var(2), ctx, SwapVarTypes[6], U(0), 1);
    TypeCheckUniverse(fuel - 1, 0, ctx);
    AppRule(fuel, App(Var(6), Var(2)), Var(1), ctx, Pi("_", U(0), U(0)), U(0), 1);
  }

  /** The types of the variables of the context under `A`, `B` and `p`:
      each stored type shifted past the entries above it. */
  const SwapVarTypes: seq<Expr> :=
    [ App(App(Var(6), Var(2)), Var(1)),
      U(0),
      U(0),
      Pi("A", U(0), Pi("B", U(0), Pi("_", App(App(Var(8), Var(1)), Var(0)), Var(1)))),
      Pi("A", U(0), Pi("B", U(0), Pi("_", App(App(Var(8), Var(1)), Var(0)), Var(2)))),
      Pi("A", U(0), Pi("B", U(0), Pi("_", Var(1), Pi("_", Var(1), App(App(Var(10), Var(3)), Var(2)))))),
      Pi("_", U(0), Pi("_", U(0), U(0))) ]

  /** The variables of a context are typed as under `A`, `B` and `p`. */
  ghost predicate SwapTyping(ctx: Context)
  {
    forall fuel: nat, i :: 0 < fuel && 0 <= i < |SwapVarTypes| ==>
      TypeCheck(fuel, Var(i), ctx) == Ok(SwapVarTypes[i])
  }

  /** The context under `A`, `B` and `p` types its variables so. */
  lemma SwapContextTyping(ctx: Context)
    requires Seqs.Elements(ctx) == SwapEntries
    ensures SwapTyping(ctx)
  {
    forall fuel: nat, i | 0 < fuel && 0 <= i < |SwapVarTypes|
      ensures TypeCheck(fuel, Var(i), ctx) == Ok(SwapVarTypes[i])
    {
      if i < 3 {
        PairBoundVar(fuel, i, ctx);
      } else if i < 5 {
        PairProjectionVar(fuel, i, ctx);
      } else {
        PairConstructorVar(fuel, i, ctx);
      }
    }
  }

  /** The variables `p`, `B` and `A` of the context under them. */
  lemma PairBoundVar(fuel: nat, i: nat, ctx: Context)
    requires fuel > 0 && i < 3 && Seqs.Elements(ctx) == SwapEntries
    ensures TypeCheck(fuel, Var(i), ctx) == Ok(SwapVarTypes[i])
  {
    TypeCheckVar(fuel, i, ctx);
    assert Shift(SwapEntries[i].1, i + 1, 0) == SwapVarTypes[i];
  }

  /** The projections `snd` and `fst` in the context under `A`, `B` and `p`. */
  lemma PairProjectionVar(fuel: nat, i: nat, ctx: Context)
    requires fuel > 0 && 3 <= i < 5 && Seqs.Elements(ctx) == SwapEntries
    ensures TypeCheck(fuel, Var(i), ctx) == Ok(SwapVarTypes[i])
  {
    TypeCheckVar(fuel, i, ctx);
    assert Shift(SwapEntries[i].1, i + 1, 0) == SwapVarTypes[i];
  }

  /** The constructors `pair` and `Pair` in the context under `A`, `B` and `p`. */
  lemma PairConstructorVar(fuel: nat, i: nat, ctx: Context)
    requires fuel > 0 && 5 <= i < 7 && Seqs.Elements(ctx) == SwapEntries
    ensures TypeCheck(fuel, Var(i), ctx) == Ok(SwapVarTypes[i])
  {
    TypeCheckVar(fuel, i, ctx);
    assert Shift(SwapEntries[i].1, i + 1, 0) == SwapVarTypes[i];
  }

  /** The entries `succ`, `zero` and `Nat` pushed onto the pair example's
      context, newest first. */
  const NatEntries: seq<(string, Expr)> :=
    [("succ", Pi("_", Var(1), Var(2))), ("zero", Var(0)), ("Nat", U(0))]

  /** `pair U0 Nat` in the context extended with `Nat`, `zero` and `succ`
      is rejected at every fuel from 3 on: `pair` expects a type of type
      `U0` as first argument and `U0` has type `U1`, so the check fails
      with the argument mismatch before the second argument is looked at. */
  lemma PairOfUniverse(fuel: nat)
    requires fuel >= 3
    ensures var ctx := Seqs.Cons(NatEntries[0], Seqs.Cons(NatEntries[1],
                         Seqs.Cons(NatEntries[2], Seqs.FromList(PairEntries))));
      TypeCheck(fuel, App(App(Var(5), U(0)), Var(2)), ctx)
        == Err(ArgumentMismatch(U(0), U(0), U(1)))
  {
    var ctx := Seqs.Cons(NatEntries[0], Seqs.Cons(NatEntries[1],
                Seqs.Cons(NatEntries[2], Seqs.FromList(PairEntries))));
    assert Seqs.Elements(ctx) == NatEntries + PairEntries;
    PairAppliedToUniverse(fuel - 1, ctx);
    TypeCheckApp(fuel, App(Var(5), U(0)), Var(2), ctx);
  }

  /** The type of `pair` seen from six entries further down the context. */
  lemma PairConstructorShifted()
    ensures Shift(PairEntries[2].1, 6, 0) == SwapVarTypes[5]
  {
  }

  /** `pair U0` already fails: its first argument must be of type `U0`. */
  lemma PairAppliedToUniverse(fuel: nat, ctx: Context)
    requires fuel >= 2 && 5 < Depth(ctx) && Seqs.Elements(ctx)[5] == PairEntries[2]
    ensures TypeCheck(fuel, App(Var(5), U(0)), ctx) == Err(ArgumentMismatch(U(0), U(0), U(1)))
  {
    TypeCheckVar(fuel - 1, 5, ctx);
    PairConstructorShifted();
    TypeCheckUniverse(fuel - 1, 0, ctx);
    MismatchRule(fuel, Var(5), U(0), ctx, SwapVarTypes[5], U(1), 1);
  }
}
