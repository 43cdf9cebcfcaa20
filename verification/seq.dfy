/** The persistent cons list that the kernel uses for typing contexts:
    newest entry at the head, index 0 addressing the head. */
module Seqs {
  import Nats

  datatype Option<T> = None | Some(value: T)

  datatype Seq<T> = Nil | Cons(head: T, tail: Seq<T>)

  /** The elements of a list from head to tail, as a Dafny sequence: the
      reference meaning that the list operations are specified against. */
  function Elements<T>(s: Seq<T>): seq<T>
  {
    match s
    case Nil => []
    case Cons(x, xs) => [x] + Elements(xs)
  }

  /** A sequence read back to front. */
  function Reversed<T>(q: seq<T>): seq<T>
  {
    if q == [] then [] else Reversed(q[1..]) + [q[0]]
  }

  /** The entry at position `index`, counted from the head; None past the end. */
  function Lookup<T>(index: nat, s: Seq<T>): (r: Option<T>)
    ensures r.Some? <==> index < |Elements(s)|
    ensures r.Some? ==> r.value == Elements(s)[index]
  {
    match s
    case Nil => None
    case Cons(x, xs) =>
      if index == 0 then Some(x) else Lookup(Nats.Clamp(Nats.ToInt(index) - 1), xs)
  }

  /** Builds a list holding the elements of `l` in the same order. */
  function FromList<T>(l: seq<T>): (r: Seq<T>)
    ensures Elements(r) == l
  {
    if |l| > 0 then Cons(l[0], FromList(l[1..])) else Nil
  }

  /** Reverses `s` onto the accumulator `acc`. */
  function ReverseOnto<T>(s: Seq<T>, acc: Seq<T>): (r: Seq<T>)
    ensures Elements(r) == Reversed(Elements(s)) + Elements(acc)
  {
    match s
    case Nil => acc
    case Cons(x, xs) =>
      assert Elements(s)[1..] == Elements(xs);
      ReverseOnto(xs, Cons(x, acc))
  }

  function Reverse<T>(s: Seq<T>): (r: Seq<T>)
    ensures Elements(r) == Reversed(Elements(s))
  {
    ReverseOnto(s, Nil)
  }

  /** A list is determined by its elements: FromList inverts Elements. */
  lemma {:induction false} FromElements<T>(s: Seq<T>)
    ensures FromList(Elements(s)) == s
  {
    match s
    case Nil =>
    case Cons(x, xs) =>
      assert Elements(s)[1..] == Elements(xs);
      FromElements(xs);
  }

  lemma {:induction false} ReversedLength<T>(q: seq<T>)
    ensures |Reversed(q)| == |q|
  {
    if q != [] {
      ReversedLength(q[1..]);
    }
  }

  lemma {:induction false} ReversedAt<T>(q: seq<T>, k: nat)
    requires k < |q|
    ensures |Reversed(q)| == |q| && Reversed(q)[k] == q[|q| - 1 - k]
  {
    ReversedLength(q);
    if k < |q| - 1 {
      ReversedAt(q[1..], k);
    }
  }

  lemma ReversedTwice<T>(q: seq<T>)
    ensures Reversed(Reversed(q)) == q
  {
    ReversedLength(q);
    ReversedLength(Reversed(q));
    forall k | 0 <= k < |q|
      ensures Reversed(Reversed(q))[k] == q[k]
    {
      ReversedAt(Reversed(q), k);
      ReversedAt(q, |q| - 1 - k);
    }
  }

  /** Looking up a list built from `l` finds the elements of `l` in order. */
  lemma LookupFromList<T>(l: seq<T>, i: nat)
    requires i < |l|
    ensures Lookup(i, FromList(l)) == Some(l[i])
  {
  }

  /** Reversal preserves the length and is an involution. */
  lemma ReverseInvolution<T>(s: Seq<T>)
    ensures |Elements(Reverse(s))| == |Elements(s)|
    ensures Reverse(Reverse(s)) == s
  {
    ReversedLength(Elements(s));
    ReversedTwice(Elements(s));
    FromElements(Reverse(Reverse(s)));
    FromElements(s);
  }

  /** Position `i` of the reversed list is position `length - 1 - i` of the list. */
  lemma LookupReverse<T>(s: Seq<T>, i: nat)
    requires i < |Elements(s)|
    ensures Lookup(i, Reverse(s)) == Lookup(|Elements(s)| - 1 - i, s)
  {
    ReversedAt(Elements(s), i);
  }
}
