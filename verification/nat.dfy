/** The natural-number wrapper of the kernel: an integer that the constructor
    clamps at zero. A wrapped value is represented by a Dafny `nat`; the
    wrapper's equality and ordering are then those of the held integer. */
module Nats {

  /** Wrapping an integer: negative arguments become zero. */
  function Clamp(v: int): (n: nat)
    ensures n >= v
    ensures n == v || n == 0
  {
    if v < 0 then 0 else v
  }

  /** Unwrapping: the held integer, never negative, and wrapping it again
      gives back the same natural number. */
  function ToInt(n: nat): (v: int)
    ensures v >= 0
    ensures Clamp(v) == n
  {
    n
  }

  /** Addition of two wrapped values wraps their sum; since both are
      non-negative, the clamp never changes the sum. */
  function Add(a: nat, b: nat): (r: nat)
    ensures r == a + b
  {
    Clamp(ToInt(a) + ToInt(b))
  }

  /** The larger of two wrapped values. */
  function Max(a: nat, b: nat): (r: nat)
    ensures r >= a && r >= b
    ensures r == a || r == b
  {
    if a < b then b else a
  }

  /** Wrapping is `max(v, 0)`, and the wrapped value is its own integer. */
  lemma ClampIsMax(v: int)
    ensures ToInt(Clamp(v)) == (if v >= 0 then v else 0)
  {
  }

  /** Addition of wrapped values is the wrapped sum, is commutative and
      associative, and has the wrapped zero as identity; the wrapper's
      order agrees with the order of the integers it was built from. */
  lemma AddAndOrderLaws(a: int, b: int, c: nat)
    requires a >= 0 && b >= 0
    ensures Add(Clamp(a), Clamp(b)) == Clamp(a + b)
    ensures Add(Clamp(a), Clamp(b)) == Add(Clamp(b), Clamp(a))
    ensures Add(Add(Clamp(a), Clamp(b)), c) == Add(Clamp(a), Add(Clamp(b), c))
    ensures Add(Clamp(a), Clamp(0)) == Clamp(a)
    ensures (Clamp(a) < Clamp(b)) <==> (a < b)
    ensures (Clamp(a) == Clamp(b)) <==> (a == b)
  {
  }
}
