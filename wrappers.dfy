/** Failure-carrying values shared by the ranking models. */
module Wrappers {

  /** A value that JavaScript may leave `undefined` or `null`. */
  datatype Option<+T> = None | Some(value: T)

  /** The outcome of an operation that JavaScript may abort with an exception. */
  datatype Result<+T> = Success(value: T) | Failure(error: Fault)

  /** The exceptions the modelled code can raise. */
  datatype Fault =
    | TypeError(reason: string)   // a property read or call on `undefined`/`null`

  /** JavaScript's `a[i]` on an array: `undefined` outside `0 <= i < a.length`. */
  function At<T>(a: seq<T>, i: int): (r: Option<T>)
    ensures r.Some? <==> 0 <= i < |a|
    ensures r.Some? ==> r.value == a[i]
  {
    if 0 <= i < |a| then Some(a[i]) else None
  }
}
