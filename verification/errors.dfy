/** The failures the kernel raises, one kind per kind of message, each
    holding the terms its message displays, and the result type that carries
    them. */
module Errors {
  import opened Syntax

  datatype Error =
    | OutOfBounds(index: nat)                                // a variable past the end of the context
    | ExpectingAType(found: Expr, foundType: Expr)           // a domain or parameter type whose type is not a universe
    | ExpectingAFunction(foundType: Expr)                    // an applied term whose type is not a Pi
    | ArgumentMismatch(expected: Expr, found: Expr, foundType: Expr)
    | PiAssertion(domainType: Expr, codomainType: Expr)      // a Pi part whose type is not a universe
    | ExpectingALambda                                       // beta reduction of a non-lambda head
    | OutOfFuel                                              // the recursion bound ran out (the host's recursion limit)

  datatype Result<T> = Ok(value: T) | Err(error: Error)
  {
    predicate IsFailure() {
      Err?
    }

    function PropagateFailure<V>(): Result<V>
      requires Err?
    {
      Err(error)
    }

    function Extract(): T
      requires Ok?
    {
      value
    }
  }
}
