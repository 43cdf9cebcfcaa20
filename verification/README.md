# A verified model of the rhubarb kernel

This project models the kernel of rhubarb, a small dependently typed lambda
calculus over de Bruijn indices, in Dafny. The kernel's expressions are
applications, lambdas, Pi types, universes `U(l)` and variables. Binder
names are kept for display only and are not compared. The model covers:

- **Index machinery** (`Syntax`): `shift` and `substitute`, capture-avoiding
  renumbering of free variables.
- **Normaliser** (`Normalize`): `value` (weak-head normal form by beta
  reduction) and `reduce` (full normal form).
- **Type checker** (`Typing`): `type_check` over a hierarchy of universes
  (`U l : U (l+1)`, a Pi lives in the `max` of its parts' levels).
- **Examples** (`Scenarios`): typing derivations for the terms of the
  repository's example script and for terms that show how the type checker fails.
- **Helpers**: the persistent cons list used as typing context (`Seqs`:
  `lookup`, `from_list`, `reverse`) and the natural-number wrapper that
  clamps negatives to zero (`Nats`).

Everything in the kernel is pure recursion over immutable trees, with no
state updated in place, so the model is datatypes, functions and lemmas.
`shift`, `substitute` and the list functions recurse on subterms. `value`,
`reduce` and `type_check` do not: `value` continues with an instantiated
body (main.py:149), `reduce` with the parts of `value`'s result (main.py:164,
167), and `type_check` checks a domain taken from an inferred type
(main.py:189). The source raises
exceptions; here they are the `Error` kinds of a `Result`. There is one kind
per kind of message, holding the terms the message displays: `OutOfBounds`,
`ExpectingAType`, `ExpectingAFunction`, `ArgumentMismatch`, `PiAssertion` and
`ExpectingALambda`. `ExpectingAType` has two raise sites: an ill-typed domain
in an application (main.py:194) and an ill-typed parameter type in a lambda
(main.py:221). `value`, `reduce` and `type_check` need not terminate on
ill-typed terms. Each therefore takes a recursion bound `fuel` and answers
`OutOfFuel` when it runs out. `OutOfFuel` stands for Python's
`RecursionError` at the interpreter's recursion limit. That limit also stops
deep terms whose evaluation would terminate, and the model does not fix its
value. The fuel monotonicity lemmas show that more fuel never changes any
other answer.

Points where the model's reading matters:

- Equality of expressions is the dataclass equality with names excluded.
  In the model it is `Equiv`, proved equal to "identical once names are
  blanked" (`EquivIsErasure`). The type checker compares the argument type
  with the domain using `Equiv`.
- The type checker does **not** normalise the function's type before
  requiring a `Pi` (main.py:185-186): it matches the inferred type as it
  stands. A function whose stored type is a redex that reduces to a `Pi` is
  therefore rejected (`Scenarios.UnnormalisedFunctionType`).
- `value` raises "expecting a lambda" on any application whose head is not
  a lambda, including a variable. So `reduce` fails on neutral terms such
  as `f x` under a binder (`ValueRejectsNeutral`), even when they type-check
  (`Scenarios.WellTypedNeutral`).
- Substituting right after a shift up finds nothing to replace, so
  `substitute(shift(e, 1), v, 0)` is `shift(e, 1)` and not `e`
  (`SubstAfterShift`); for `e = Var(0)` it is `Var(1)`. The beta step of
  main.py:149 ends with a shift down, and with it weakening then
  instantiating gives back `e` (`InstantiateWeakened`).
- `Reduce` models `reduce` with the fallback branch corrected (see
  Findings). The source's version is kept as `ReduceAsWritten`.

## Model

| member | source | states |
|---|---|---|
| `Nats.Clamp` | nat.py:9-10 | the wrapped value is non-negative, at least the argument, and is either the argument or 0 (that is, `max(v, 0)`) |
| `Nats.ToInt` | nat.py:12-13 | the held integer is non-negative and wrapping it again gives the same natural number |
| `Nats.Add` | nat.py:18-19 | adding two wrapped values gives their exact sum (the clamp never fires) |
| `Nats.Max` | main.py:228 | the larger of two levels: at least both, and equal to one of them |
| `Nats.ClampIsMax` | nat.py:9-13 | unwrapping a wrapped integer gives `max(v, 0)` |
| `Nats.AddAndOrderLaws` | nat.py:5-19 | `Nat(a) + Nat(b) == Nat(a + b)` for non-negative `a`, `b`; addition is commutative and associative with `Nat(0)` as identity; `<` and `==` of wrapped values are those of the integers |
| `Seqs.Lookup` | seq.py:38-47 | the lookup succeeds exactly when the index is below the length, and then returns the element at that position counted from the head |
| `Seqs.FromList` | seq.py:50-56 | the list built holds exactly the given elements in the same order |
| `Seqs.ReverseOnto` | seq.py:63-69 | the result is the reversed list followed by the accumulator |
| `Seqs.Reverse` | seq.py:59-60 | the result holds the elements in reverse order |
| `Seqs.FromElements` | seq.py:50-56 | `from_list` inverts reading a list's elements, so a list is determined by its elements |
| `Seqs.LookupFromList` | seq.py:38-56 | `lookup(i, from_list(l)) == Some(l[i])` for every `i < len(l)` |
| `Seqs.ReverseInvolution` | seq.py:59-69 | reversal preserves the length and `reverse(reverse(s)) == s` |
| `Seqs.LookupReverse` | seq.py:38-69 | `lookup(i, reverse(s)) == lookup(length - 1 - i, s)` for every `i` below the length |
| `Syntax.Equiv` | main.py:15-26 | two expressions equal with binder names excluded coincide once their names are blanked |
| `Syntax.EquivIsErasure` | main.py:15-26 | two expressions are equal (names excluded) exactly when they coincide once binder names are blanked |
| `Syntax.EquivIsEquivalence` | main.py:15-26 | the equality is reflexive, symmetric and transitive, and lambdas or Pis that differ only in the binder name are equal |
| `Syntax.Shift` | main.py:97-115 | shifting keeps the tree, binder names and levels; only variable indices change |
| `Syntax.ShiftVarCases` | main.py:111-115 | a variable below the cutoff is unchanged; otherwise it becomes `Var(max(index + n, 0))`, e.g. `shift(Var(0), -1) == Var(0)` |
| `Syntax.ShiftZero` | main.py:97-115 | `shift(e, 0, c) == e` |
| `Syntax.ShiftUpDown` | main.py:97-115 | shifting up by one and back down at the same cutoff gives back `e` |
| `Syntax.ShiftClosed` | main.py:97-115 | a term whose free variables all lie below the cutoff is unchanged by any shift |
| `Syntax.ShiftUpMentions` | main.py:97-115 | shifting up by one at cutoff `c` renames free variable `k` to `k` below `c` and to `k + 1` from `c` on, and leaves no free `Var(c)` |
| `Syntax.ShiftUpClosed` | main.py:97-115 | shifting up by `n` turns a term in scope at depth `d` into one in scope at `d + n` |
| `Syntax.ShiftDownClosed` | main.py:97-115 | shifting down by one a term in scope at `d + 1` that does not mention the cutoff gives a term in scope at `d` |
| `Syntax.Unbound` | main.py:51-94 | there is a variable to report exactly when the term is not in scope of a context of the given depth, and the reported index is at least that depth |
| `Syntax.UnboundMentions` | main.py:51-94 | the reported index belongs to a free variable of the term that is out of scope: `Var(k)` occurs free at the root for some `k` between the depth and the index |
| `Syntax.Subst` | main.py:118-141 | every free variable of the term other than the substituted one stays free in the result |
| `Syntax.SubstMentions` | main.py:118-141 | `Var(k)` is free in the result exactly when it is free in the term and is not the substituted index, or the substituted index occurs and `Var(k)` is free in the substituted term |
| `Syntax.SubstSelf` | main.py:118-141 | substituting `Var(i)` for `Var(i)` leaves every term unchanged |
| `Syntax.SubstUnused` | main.py:118-141 | substituting for a variable that does not occur free leaves the term unchanged |
| `Syntax.SubstEliminates` | main.py:118-141 | substituting for `Var(i)` a term not mentioning `i` leaves no free `Var(i)`: every occurrence is replaced |
| `Syntax.SubstClosed` | main.py:118-141 | substitution of an in-scope term for an in-scope index keeps the term in scope |
| `Syntax.SubstAfterShift` | main.py:97-141 | `substitute(shift(e, 1, c), v, c) == shift(e, 1, c)`: after a shift there is nothing left to substitute |
| `Syntax.Instantiate` | main.py:149 | the beta step `shift(substitute(body, shift(arg, 1)), -1)`; a body that does not use its bound variable just loses the binder (shifted down by one) |
| `Syntax.InstantiateWeakened` | main.py:149 | the beta step `shift(substitute(shift(e, 1), shift(a, 1)), -1)` gives back `e`; without the final shift the result for `Var(0)` is `Var(1)` |
| `Syntax.InstantiateClosed` | main.py:203 | instantiating a body in scope at `d + 1` with an argument in scope at `d` gives a term in scope at `d` |
| `Normalize.Value` | main.py:144-155 | every non-application is returned unchanged, and a successful result is never an application |
| `Normalize.ValueFuelMonotone` | main.py:144-155 | with more fuel, every outcome other than running out of fuel stays the same |
| `Normalize.ValueIdempotent` | main.py:144-155 | weak-head normalisation of a weak-head normal form returns it unchanged |
| `Normalize.ValueApp` | main.py:146-152 | an application whose head normalises to `Lam(_, _, b)` continues as the value of `b` instantiated with the argument; any other head fails with "expecting a lambda" |
| `Normalize.ValueRejectsNeutral` | main.py:147-152 | an application headed by a variable fails with "expecting a lambda" |
| `Normalize.ReduceAsWritten` | main.py:158-170 | succeeds only where `value` does; when the weak-head normal form is a lambda or Pi the result is one with the same binder name, and otherwise it is the ORIGINAL term |
| `Normalize.ReduceAsWrittenAppFree` | main.py:158-170 | on terms without applications, the source's `reduce` and the corrected one agree and return the term |
| `Normalize.ReduceAsWrittenKeepsRedex` | main.py:158-170 | for `App(Lam('x', U(0), Var(0)), U(0))` the source's `reduce` returns the application itself, while the corrected `Reduce` returns `U(0)` |
| `Normalize.Reduce` | main.py:158-170 | succeeds only where `value` does; a weak-head normal form that is a universe or variable is returned as the result, one that is a lambda or Pi gives a lambda or Pi with the same binder name; a successful result contains no application node, and its height is below the fuel |
| `Normalize.ReduceWhnf` | main.py:159-170 | a universe or variable is returned unchanged, a lambda or Pi keeps its constructor and binder name, and a successful result contains no application |
| `Normalize.ReduceBinderParts` | main.py:163-167 | when the weak-head normal form is a lambda or Pi, the type and body of the result are the full normal forms of its type and body |
| `Normalize.ReduceAppFree` | main.py:158-170 | a term without applications is its own full normal form |
| `Normalize.ReduceIdempotent` | main.py:158-170 | `reduce(reduce(e)) == reduce(e)`, and the result is its own weak-head normal form |
| `Normalize.ReduceFuelMonotone` | main.py:158-170 | with more fuel, every outcome other than running out of fuel stays the same |
| `Typing.TypeCheck` | main.py:182-249 | a term that checks has every variable in scope of the context; a lambda's type is a Pi with the lambda's own name and parameter type; a Pi's type is a universe |
| `Typing.CheckApp` | main.py:184-188 | an application that checks has its function and argument in scope |
| `Typing.CheckArgument` | main.py:186-208 | a function type that is not literally a Pi fails with "expecting a function"; success needs a Pi type and an in-scope argument |
| `Typing.ApplyPi` | main.py:189-203 | succeeds exactly when the domain's type is a universe and the argument's type equals the domain (names excluded), with the codomain instantiated by the argument; a domain whose type is not a universe fails with "expecting a type" |
| `Typing.CheckLam` | main.py:210-223 | a checked lambda has its parts in scope and type `Pi(var, type, _)` |
| `Typing.CheckPi` | main.py:225-233 | a checked Pi has its parts in scope and a universe as type |
| `Typing.TypeCheckUniverse` | main.py:235-236 | `U(l) : U(l+1)` in every context |
| `Typing.TypeCheckVar` | main.py:238-246 | `Var(i)` fails with out-of-bounds exactly when `i` is at least the context length, and otherwise has the stored type of entry `i` shifted by `i + 1` |
| `Typing.TypeCheckApp` | main.py:184-208 | the function is checked first and a failure is passed on; a type that is not literally a Pi fails with "expecting a function"; then failures of the argument and of the domain are passed on in that order; a domain whose type is not a universe fails with "expecting a type", an argument whose type differs from the domain with the argument mismatch; the application checks exactly when none of these happens, and its type is `shift(substitute(codomain, shift(arg, 1)), -1)` |
| `Typing.AppRule` | main.py:184-203 | from `f : Pi(_, dom, cod)`, `a : dom'` with `dom'` equal to `dom` up to names and `dom : U(l)`, the application `f a` has type `cod` instantiated with `a` |
| `Typing.MismatchRule` | main.py:184-201 | from `f : Pi(_, dom, cod)`, `a : dom'` with `dom'` different from `dom` beyond names, and `dom : U(l)`, the application `f a` fails with the mismatch showing `dom`, `a` and `dom'` |
| `Typing.TypeCheckBinders` | main.py:210-233 | a failure of the parameter type, then of the body, is passed on; a lambda checks exactly when its parameter type has a universe type and its body checks, giving `Pi(var, type, body type)`, and otherwise fails with "expecting a type" showing the parameter type's type; a Pi checks exactly when both parts have universe types, giving `U(max(l1, l2))`, and otherwise fails with the assertion message, or with out-of-bounds when either type does not display in the outer context |
| `Typing.TypeCheckFuelMonotone` | main.py:182-249 | with more fuel, every outcome other than running out of fuel stays the same |
| `Typing.TypeCheckTypeScoped` | main.py:182-249 | in a context whose stored types are in scope, every inferred type is in scope too |
| `Scenarios.Identity` | example.py:29-33 | `Lam('A', U(0), Lam('a', Var(0), Var(0)))` has type `Pi('A', U(0), Pi('a', Var(0), Var(1)))` in the empty context |
| `Scenarios.Composition` | example.py:5-25 | the composition of `B → C` and `A → B` in the context `C, B, A : U(0)` has type `(B → C) → (A → B) → A → C` |
| `Scenarios.PairSwap` | example.py:37-113 | in the context declaring `Pair`, `pair`, `fst` and `snd`, the swap `λ A B (p : Pair A B). pair B A (snd A B p) (fst A B p)` has type `Π A B. Pair A B → Pair B A` at every fuel from 9 on, although the types involved contain unreduced applications of `Pair` |
| `Scenarios.PairOfUniverse` | example.py:117-135 | `pair U0 Nat`, the call whose check is commented out, fails at every fuel from 3 on with the argument mismatch `U0` expected, `U0 : U1` found |
| `Scenarios.UnnormalisedFunctionType` | main.py:185-208 | a function whose stored type is a redex reducing to a Pi is rejected with "expecting a function"; the same function with the reduced type is accepted |
| `Scenarios.ArgumentTypes` | main.py:198-201 | an argument whose type differs from the domain only in a binder name is accepted; an argument of another type fails with the argument-mismatch error |
| `Scenarios.ParameterNotAType` | main.py:210-223 | a lambda whose parameter type is itself a lambda fails with "expecting a type", showing that lambda's Pi type |
| `Scenarios.WellTypedNeutral` | main.py:144-155 | `f X`, with `X : U0` and `f : U0 → U0`, checks with type `U0`, yet `value` fails on it with "expecting a lambda" at every fuel |
| `Scenarios.PiNotATypeFamily` | main.py:225-233 | `Pi('x', Var(0), Var(0))` under `A : U0` fails with "Out of bounds: 1", since the codomain's type `Var(1)` is shown in the outer context; `Pi('A', U0, λ (a : A). a)` fails with "Out of bounds: 0"; `Pi('x', λ (y : U0). U0, U0)` fails with the assertion showing `Π (y : U0). U1` and `U1` |

## Findings

| source | as written | input that shows it | evidently intended | confidence | as-written member | corrected member |
|---|---|---|---|---|---|---|
| main.py:169-170 | the fallback branch of `reduce` returns the original `expr`, not the weak-head normal form it matched | `App(Lam('x', U(), Var(Nat(0))), U())`: `value` gives `U()`, but `reduce` returns the unreduced application | return the matched weak-head normal form, so that the result is fully normal | high; not executed | `Normalize.ReduceAsWritten` with `Normalize.ReduceAsWrittenKeepsRedex` | `Normalize.Reduce`, whose contract states that a universe or variable weak-head normal form is the result and that every result is free of applications |

## Left out

- `show` and `show_context` (main.py:51-94, 173-179) render diagnostics only. Error kinds carry the displayed expressions instead of message text. The context printed with each message is not carried. The one failure of `show` that the model keeps is the out-of-bounds raised while displaying the types in a Pi assertion (`Syntax.Unbound`).
- Every message of `type_check`, and the out-of-bounds message of `show`, first renders the whole context with `show_context` (main.py:173-179). In a context whose stored types are not in scope, that rendering itself fails with out-of-bounds; the model reports the raise site's own error there. In contexts whose stored types are in scope, the rendering succeeds, and the inferred types that the other messages display are in scope too (`Typing.TypeCheckTypeScoped`).
- The "TODO" catch-all of `type_check` (main.py:248-249) cannot be reached for the five constructors; exhaustive matching removes it.
- The App branch of `reduce` (main.py:160-161) cannot be reached because `value` never returns an application (`Normalize.Value`). `ReduceWhnf` and `ReduceAsWritten` leave it out.
- `Nil.__repr__`, `Cons.__repr__` and `Nat.__repr__` are display-only.
- option.py holds only a `Some` wrapper; `Seqs.Option` stands in for it.
- example.py is a driver that prints results. Its terms are the `Scenarios` lemmas; the printing is not modelled.
- test_main.py targets a different version of the kernel, with `Unknown`, `Let`, list contexts and an `eval` over host closures. None of these exist in main.py.
- Termination: `value`, `reduce` and `type_check` take fuel. A call that would not terminate in the source answers `OutOfFuel` here, at every fuel. The model proves nothing about which well-typed terms need how much fuel.
- The type of an inferred type is not proved to check again (type-of-type consistency). Only its scoping is proved (`Typing.TypeCheckTypeScoped`).
- Python's frozen dataclasses allocate fresh objects and share structure. The model works on values, so object identity is not captured.
