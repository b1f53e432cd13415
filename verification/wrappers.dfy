/** Failure-compatible wrappers used for partial extraction: an absent
    attribute or value is `None`, a failed step is a `Failure` that carries
    the reason, and `:-` propagates the first failure. */
module Wrappers {

  datatype Option<+T> = None | Some(value: T)

  datatype Result<+R, +E> = Success(value: R) | Failure(error: E) {

    predicate IsFailure() {
      Failure?
    }

    function PropagateFailure<U>(): Result<U, E>
      requires Failure?
    {
      Failure(error)
    }

    function Extract(): R
      requires Success?
    {
      value
    }
  }

  /** Turns an optional value into a result, failing with `e` when it is absent. */
  function Need<T, E>(o: Option<T>, e: E): (r: Result<T, E>)
    ensures r.Success? <==> o.Some?
    ensures o.Some? ==> r.value == o.value
    ensures o.None? ==> r.error == e
  {
    match o
    case Some(v) => Success(v)
    case None => Failure(e)
  }
}
