/** Expressions of the kernel over de Bruijn indices, their equality up to
    binder names, and the index machinery: shifting and substitution. */
module Syntax {
  import Nats
  import Seqs

  /** `name` in `Lam` and `Pi` is display-only: see `Equiv`. */
  datatype Expr =
    | App(fun: Expr, arg: Expr)
    | Lam(name: string, ty: Expr, body: Expr)
    | Pi(name: string, ty: Expr, body: Expr)
    | U(level: nat)
    | Var(index: nat)

  /** A typing context: (name, type) entries, newest first. Each stored type
      lives in the scope of the entries below it. */
  type Context = Seqs.Seq<(string, Expr)>

  // ---------------------------------------------------------------------
  // Equality up to binder names
  // ---------------------------------------------------------------------

  /** The kernel's equality on expressions: same constructors, same levels,
      same indices; binder names are not compared. Equal expressions agree
      once their names are blanked (`EquivIsErasure` gives the converse). */
  predicate Equiv(a: Expr, b: Expr)
    ensures Equiv(a, b) ==> Erase(a) == Erase(b)
  {
    match (a, b)
    case (App(f, x), App(g, y)) => Equiv(f, g) && Equiv(x, y)
    case (Lam(_, t, body), Lam(_, t', body')) => Equiv(t, t') && Equiv(body, body')
    case (Pi(_, t, body), Pi(_, t', body')) => Equiv(t, t') && Equiv(body, body')
    case (U(l), U(m)) => l == m
    case (Var(i), Var(j)) => i == j
    case _ => false
  }

  /** The same expression with every binder name blanked. */
  function Erase(e: Expr): Expr
  {
    match e
    case App(f, a) => App(Erase(f), Erase(a))
    case Lam(_, t, b) => Lam("", Erase(t), Erase(b))
    case Pi(_, t, b) => Pi("", Erase(t), Erase(b))
    case U(_) => e
    case Var(_) => e
  }

  /** Two expressions are equal up to names exactly when they coincide once
      their names are blanked. */
  lemma {:induction false} EquivIsErasure(a: Expr, b: Expr)
    ensures Equiv(a, b) <==> Erase(a) == Erase(b)
  {
    match (a, b)
    case (App(f, x), App(g, y)) =>
      EquivIsErasure(f, g);
      EquivIsErasure(x, y);
    case (Lam(_, t, body), Lam(_, t', body')) =>
      EquivIsErasure(t, t');
      EquivIsErasure(body, body');
    case (Pi(_, t, body), Pi(_, t', body')) =>
      EquivIsErasure(t, t');
      EquivIsErasure(body, body');
    case _ =>
  }

  /** Equality up to names is an equivalence relation, and expressions that
      differ only in binder names are equal. */
  lemma EquivIsEquivalence(a: Expr, b: Expr, c: Expr, x: string, y: string)
    ensures Equiv(a, a)
    ensures Equiv(a, b) ==> Equiv(b, a)
    ensures Equiv(a, b) && Equiv(b, c) ==> Equiv(a, c)
    ensures Equiv(Lam(x, a, b), Lam(y, a, b)) && Equiv(Pi(x, a, b), Pi(y, a, b))
  {
    EquivIsErasure(a, a);
    EquivIsErasure(b, b);
    EquivIsErasure(a, b);
    EquivIsErasure(b, a);
    EquivIsErasure(b, c);
    EquivIsErasure(a, c);
  }

  // ---------------------------------------------------------------------
  // Shape, occurrence and scope
  // ---------------------------------------------------------------------

  /** `a` and `b` have the same tree, names and levels; only variable
      indices may differ. */
  predicate SameShape(a: Expr, b: Expr)
  {
    match (a, b)
    case (App(f, x), App(g, y)) => SameShape(f, g) && SameShape(x, y)
    case (Lam(n, t, body), Lam(m, t', body')) => n == m && SameShape(t, t') && SameShape(body, body')
    case (Pi(n, t, body), Pi(m, t', body')) => n == m && SameShape(t, t') && SameShape(body, body')
    case (U(l), U(m)) => l == m
    case (Var(_), Var(_)) => true
    case _ => false
  }

  /** `Var(k)`, read at the root of `e`, occurs free in `e`. */
  predicate Mentions(e: Expr, k: nat)
  {
    match e
    case App(f, a) => Mentions(f, k) || Mentions(a, k)
    case Lam(_, t, b) => Mentions(t, k) || Mentions(b, k + 1)
    case Pi(_, t, b) => Mentions(t, k) || Mentions(b, k + 1)
    case U(_) => false
    case Var(i) => i == k
  }

  /** Every free variable of `e` is below `depth`. */
  predicate Closed(e: Expr, depth: nat)
  {
    match e
    case App(f, a) => Closed(f, depth) && Closed(a, depth)
    case Lam(_, t, b) => Closed(t, depth) && Closed(b, depth + 1)
    case Pi(_, t, b) => Closed(t, depth) && Closed(b, depth + 1)
    case U(_) => true
    case Var(i) => i < depth
  }

  /** The first variable, in reading order, that is out of scope when `e`
      is displayed in a context of `depth` entries, as an index relative to
      the binders around it: the index that displaying `e` reports as out
      of bounds. */
  function Unbound(e: Expr, depth: nat): (r: Seqs.Option<nat>)
    ensures r.None? <==> Closed(e, depth)
    ensures r.Some? ==> r.value >= depth
  {
    match e
    case App(f, a) => if Unbound(f, depth).Some? then Unbound(f, depth) else Unbound(a, depth)
    case Lam(_, t, b) => if Unbound(t, depth).Some? then Unbound(t, depth) else Unbound(b, depth + 1)
    case Pi(_, t, b) => if Unbound(t, depth).Some? then Unbound(t, depth) else Unbound(b, depth + 1)
    case U(_) => Seqs.None
    case Var(i) => if i < depth then Seqs.None else Seqs.Some(i)
  }
  /** The index `Unbound` reports is that of a free variable of `e` out of
      scope at `depth`, read with the binders around it: the variable itself
      is `Var(k)` at the root for some `k` between `depth` and the index. */
  lemma {:induction false} UnboundMentions(e: Expr, depth: nat)
    requires Unbound(e, depth).Some?
    ensures exists k :: depth <= k <= Unbound(e, depth).value && Mentions(e, k)
  {
    match e
    case App(f, a) =>
      if Unbound(f, depth).Some? {
        UnboundMentions(f, depth);
        var k :| depth <= k <= Unbound(f, depth).value && Mentions(f, k);
        assert Mentions(e, k);
      } else {
        UnboundMentions(a, depth);
        var k :| depth <= k <= Unbound(a, depth).value && Mentions(a, k);
        assert Mentions(e, k);
      }
    case Lam(_, t, b) =>
      if Unbound(t, depth).Some? {
        UnboundMentions(t, depth);
        var k :| depth <= k <= Unbound(t, depth).value && Mentions(t, k);
        assert Mentions(e, k);
      } else {
        UnboundMentions(b, depth + 1);
        var k :| depth + 1 <= k <= Unbound(b, depth + 1).value && Mentions(b, k);
        assert Mentions(e, k - 1);
      }
    case Pi(_, t, b) =>
      if Unbound(t, depth).Some? {
        UnboundMentions(t, depth);
        var k :| depth <= k <= Unbound(t, depth).value && Mentions(t, k);
        assert Mentions(e, k);
      } else {
        UnboundMentions(b, depth + 1);
        var k :| depth + 1 <= k <= Unbound(b, depth + 1).value && Mentions(b, k);
        assert Mentions(e, k - 1);
      }
    case Var(i) =>
      assert Mentions(e, i);
  }


  // ---------------------------------------------------------------------
  // Shifting and substitution
  // ---------------------------------------------------------------------

  /** Adds `n` to every variable at or above `cutoff`; the cutoff grows by
      one under the body of a binder. Indices are clamped at zero. */
  function Shift(e: Expr, n: int, cutoff: nat): (r: Expr)
    ensures SameShape(e, r)
  {
    match e
    case App(f, a) => App(Shift(f, n, cutoff), Shift(a, n, cutoff))
    case Lam(x, t, b) => Lam(x, Shift(t, n, cutoff), Shift(b, n, Nats.Add(cutoff, 1)))
    case Pi(x, t, b) => Pi(x, Shift(t, n, cutoff), Shift(b, n, Nats.Add(cutoff, 1)))
    case U(_) => e
    case Var(i) => if i < cutoff then e else Var(Nats.Clamp(Nats.ToInt(i) + n))
  }

  /** Replaces `Var(i)` by `v`; under a binder `v` is shifted up by one and
      the target index grows by one. Every other free variable survives. */
  function Subst(e: Expr, v: Expr, i: nat): (r: Expr)
    ensures forall k :: k != i && Mentions(e, k) ==> Mentions(r, k)
  {
    match e
    case App(f, a) => App(Subst(f, v, i), Subst(a, v, i))
    case Lam(x, t, b) => Lam(x, Subst(t, v, i), Subst(b, Shift(v, 1, 0), Nats.Add(i, 1)))
    case Pi(x, t, b) => Pi(x, Subst(t, v, i), Subst(b, Shift(v, 1, 0), Nats.Add(i, 1)))
    case U(_) => e
    case Var(j) => if j == i then v else e
  }

  /** The body of a binder with `arg` put in for the bound variable: the
      argument is shifted into the binder's scope, substituted for index 0,
      and the result is shifted back out. Used by beta reduction and by the
      typing rule for application. A body that does not use its bound
      variable just loses the binder. */
  function Instantiate(body: Expr, arg: Expr): (r: Expr)
    ensures !Mentions(body, 0) ==> r == Shift(body, -1, 0)
  {
    var v := Shift(arg, 1, 0);
    assert !Mentions(body, 0) ==> Subst(body, v, 0) == body by {
      if !Mentions(body, 0) {
        SubstUnused(body, v, 0);
      }
    }
    Shift(Subst(body, v, 0), -1, 0)
  }

  // ---------------------------------------------------------------------
  // Properties of shifting
  // ---------------------------------------------------------------------

  /** Shifting a variable, by cases: below the cutoff it is unchanged;
      otherwise it moves by `n`, and a move below zero lands on zero. */
  lemma ShiftVarCases(i: nat, n: int, c: nat)
    ensures i < c ==> Shift(Var(i), n, c) == Var(i)
    ensures c <= i && 0 <= i + n ==> Shift(Var(i), n, c) == Var(i + n)
    ensures c <= i && i + n < 0 ==> Shift(Var(i), n, c) == Var(0)
    ensures Shift(Var(0), -1, 0) == Var(0)
  {
  }

  /** Shifting by zero changes nothing. */
  lemma {:induction false} ShiftZero(e: Expr, c: nat)
    ensures Shift(e, 0, c) == e
  {
    match e
    case App(f, a) => ShiftZero(f, c); ShiftZero(a, c);
    case Lam(_, t, b) => ShiftZero(t, c); ShiftZero(b, c + 1);
    case Pi(_, t, b) => ShiftZero(t, c); ShiftZero(b, c + 1);
    case U(_) =>
    case Var(_) =>
  }

  /** Shifting up by one and back down at the same cutoff is the identity. */
  lemma {:induction false} ShiftUpDown(e: Expr, c: nat)
    ensures Shift(Shift(e, 1, c), -1, c) == e
  {
    match e
    case App(f, a) => ShiftUpDown(f, c); ShiftUpDown(a, c);
    case Lam(_, t, b) => ShiftUpDown(t, c); ShiftUpDown(b, c + 1);
    case Pi(_, t, b) => ShiftUpDown(t, c); ShiftUpDown(b, c + 1);
    case U(_) =>
    case Var(_) =>
  }

  /** A term whose free variables all lie below the cutoff is left alone. */
  lemma {:induction false} ShiftClosed(e: Expr, n: int, c: nat)
    requires Closed(e, c)
    ensures Shift(e, n, c) == e
  {
    match e
    case App(f, a) => ShiftClosed(f, n, c); ShiftClosed(a, n, c);
    case Lam(_, t, b) => ShiftClosed(t, n, c); ShiftClosed(b, n, c + 1);
    case Pi(_, t, b) => ShiftClosed(t, n, c); ShiftClosed(b, n, c + 1);
    case U(_) =>
    case Var(_) =>
  }

  /** Shifting up by one at cutoff `c` renames the free variable `k` to
      `k` below the cutoff and to `k + 1` from it on, and leaves no free
      occurrence of `c` itself. */
  lemma {:induction false} ShiftUpMentions(e: Expr, c: nat, k: nat)
    ensures Mentions(Shift(e, 1, c), if k < c then k else k + 1) <==> Mentions(e, k)
    ensures !Mentions(Shift(e, 1, c), c)
  {
    match e
    case App(f, a) => ShiftUpMentions(f, c, k); ShiftUpMentions(a, c, k);
    case Lam(_, t, b) => ShiftUpMentions(t, c, k); ShiftUpMentions(b, c + 1, k + 1);
    case Pi(_, t, b) => ShiftUpMentions(t, c, k); ShiftUpMentions(b, c + 1, k + 1);
    case U(_) =>
    case Var(_) =>
  }

  /** Shifting up by `n` turns a term closed at `depth` into one closed at
      `depth + n`. */
  lemma {:induction false} ShiftUpClosed(e: Expr, n: nat, c: nat, depth: nat)
    requires Closed(e, depth)
    ensures Closed(Shift(e, n, c), depth + n)
  {
    match e
    case App(f, a) => ShiftUpClosed(f, n, c, depth); ShiftUpClosed(a, n, c, depth);
    case Lam(_, t, b) => ShiftUpClosed(t, n, c, depth); ShiftUpClosed(b, n, c + 1, depth + 1);
    case Pi(_, t, b) => ShiftUpClosed(t, n, c, depth); ShiftUpClosed(b, n, c + 1, depth + 1);
    case U(_) =>
    case Var(_) =>
  }

  /** Shifting down by one at a cutoff `c <= depth` a term closed at `depth + 1` that
      does not mention `c` gives a term closed at `depth`. */
  lemma {:induction false} ShiftDownClosed(e: Expr, c: nat, depth: nat)
    requires c <= depth && Closed(e, depth + 1) && !Mentions(e, c)
    ensures Closed(Shift(e, -1, c), depth)
  {
    match e
    case App(f, a) => ShiftDownClosed(f, c, depth); ShiftDownClosed(a, c, depth);
    case Lam(_, t, b) => ShiftDownClosed(t, c, depth); ShiftDownClosed(b, c + 1, depth + 1);
    case Pi(_, t, b) => ShiftDownClosed(t, c, depth); ShiftDownClosed(b, c + 1, depth + 1);
    case U(_) =>
    case Var(_) =>
  }

  // ---------------------------------------------------------------------
  // Properties of substitution
  // ---------------------------------------------------------------------

  /** Substituting for a variable that does not occur changes nothing. */
  lemma {:induction false} SubstUnused(e: Expr, v: Expr, i: nat)
    requires !Mentions(e, i)
    ensures Subst(e, v, i) == e
  {
    match e
    case App(f, a) => SubstUnused(f, v, i); SubstUnused(a, v, i);
    case Lam(_, t, b) => SubstUnused(t, v, i); SubstUnused(b, Shift(v, 1, 0), i + 1);
    case Pi(_, t, b) => SubstUnused(t, v, i); SubstUnused(b, Shift(v, 1, 0), i + 1);
    case U(_) =>
    case Var(_) =>
  }

  /** Substituting for `Var(i)` a term that does not mention `i` leaves no
      free occurrence of `i`: every occurrence was replaced. */
  lemma {:induction false} SubstEliminates(e: Expr, v: Expr, i: nat)
    requires !Mentions(v, i)
    ensures !Mentions(Subst(e, v, i), i)
  {
    match e
    case App(f, a) => SubstEliminates(f, v, i); SubstEliminates(a, v, i);
    case Lam(_, t, b) =>
      SubstEliminates(t, v, i);
      ShiftUpMentions(v, 0, i);
      SubstEliminates(b, Shift(v, 1, 0), i + 1);
    case Pi(_, t, b) =>
      SubstEliminates(t, v, i);
      ShiftUpMentions(v, 0, i);
      SubstEliminates(b, Shift(v, 1, 0), i + 1);
    case U(_) =>
    case Var(_) =>
  }

  /** The free variables after a substitution: those of `e` other than
      `i`, and, when `i` occurred, those of `v`. */
  lemma {:induction false} SubstMentions(e: Expr, v: Expr, i: nat, k: nat)
    ensures Mentions(Subst(e, v, i), k)
      <==> (k != i && Mentions(e, k)) || (Mentions(e, i) && Mentions(v, k))
  {
    match e
    case App(f, a) => SubstMentions(f, v, i, k); SubstMentions(a, v, i, k);
    case Lam(_, t, b) =>
      SubstMentions(t, v, i, k);
      ShiftUpMentions(v, 0, k);
      SubstMentions(b, Shift(v, 1, 0), i + 1, k + 1);
    case Pi(_, t, b) =>
      SubstMentions(t, v, i, k);
      ShiftUpMentions(v, 0, k);
      SubstMentions(b, Shift(v, 1, 0), i + 1, k + 1);
    case U(_) =>
    case Var(_) =>
  }

  /** Substituting a variable for itself changes nothing. */
  lemma {:induction false} SubstSelf(e: Expr, i: nat)
    ensures Subst(e, Var(i), i) == e
  {
    match e
    case App(f, a) => SubstSelf(f, i); SubstSelf(a, i);
    case Lam(_, t, b) => SubstSelf(t, i); SubstSelf(b, i + 1);
    case Pi(_, t, b) => SubstSelf(t, i); SubstSelf(b, i + 1);
    case U(_) =>
    case Var(_) =>
  }

  /** Substituting a term closed at `depth`, for an index below `depth`,
      into a term closed at `depth` keeps the result closed at `depth`. */
  lemma {:induction false} SubstClosed(e: Expr, v: Expr, i: nat, depth: nat)
    requires Closed(e, depth) && Closed(v, depth) && i < depth
    ensures Closed(Subst(e, v, i), depth)
  {
    match e
    case App(f, a) => SubstClosed(f, v, i, depth); SubstClosed(a, v, i, depth);
    case Lam(_, t, b) =>
      SubstClosed(t, v, i, depth);
      ShiftUpClosed(v, 1, 0, depth);
      SubstClosed(b, Shift(v, 1, 0), i + 1, depth + 1);
    case Pi(_, t, b) =>
      SubstClosed(t, v, i, depth);
      ShiftUpClosed(v, 1, 0, depth);
      SubstClosed(b, Shift(v, 1, 0), i + 1, depth + 1);
    case U(_) =>
    case Var(_) =>
  }

  /** Shift-then-substitute: after shifting up at cutoff `c` there is no
      `Var(c)` left, so substituting for it is a no-op. */
  lemma SubstAfterShift(e: Expr, v: Expr, c: nat)
    ensures Subst(Shift(e, 1, c), v, c) == Shift(e, 1, c)
  {
    ShiftUpMentions(e, c, 0);
    SubstUnused(Shift(e, 1, c), v, c);
  }

  /** The cancellation law in the form that holds: instantiating the body
      of a binder that does not use its variable gives back the term it was
      weakened from. Read as `substitute(shift(e, 1), v, 0) == e`, without
      the final shift down, the law fails already for `e = Var(0)`. */
  lemma InstantiateWeakened(e: Expr, a: Expr)
    ensures Instantiate(Shift(e, 1, 0), a) == e
    ensures Subst(Shift(Var(0), 1, 0), a, 0) == Var(1)
  {
    SubstAfterShift(e, Shift(a, 1, 0), 0);
    ShiftUpDown(e, 0);
  }

  /** Instantiating a body scoped one level deeper with an argument in
      scope gives a term in scope. */
  lemma InstantiateClosed(body: Expr, arg: Expr, depth: nat)
    requires Closed(body, depth + 1) && Closed(arg, depth)
    ensures Closed(Instantiate(body, arg), depth)
  {
    ShiftUpClosed(arg, 1, 0, depth);
    SubstClosed(body, Shift(arg, 1, 0), 0, depth + 1);
    ShiftUpMentions(arg, 0, 0);
    SubstEliminates(body, Shift(arg, 1, 0), 0);
    ShiftDownClosed(Subst(body, Shift(arg, 1, 0), 0), 0, depth);
  }
}
