/** Optional values and results, standing in for Kotlin's nullable types and exceptions. */
module Wrappers {

  /** A Kotlin `T?`: either no value (null) or a value. */
  datatype Option<+T> = None | Some(value: T) {

    /** Kotlin's `?:` with a non-null right-hand side. */
    function GetOr(fallback: T): (r: T)
      ensures Some? ==> r == value
      ensures None? ==> r == fallback
    {
      match this
      case Some(v) => v
      case None => fallback
    }

    /** Kotlin's `a ?: b` where `b` is nullable too. */
    function OrElse(other: Option<T>): (r: Option<T>)
      ensures Some? ==> r == this
      ensures None? ==> r == other
    {
      if Some? then this else other
    }
  }

  /** The outcome of a call that can throw: a value, or the error it raised. */
  datatype Result<+T, +E> = Ok(value: T) | Err(error: E) {

    predicate IsFailure() {
      Err?
    }

    /** Re-raises the error of a failed call from a caller with another result type. */
    function PropagateFailure<U>(): Result<U, E>
      requires Err?
    {
      Err(error)
    }

    function Extract(): T
      requires Ok?
    {
      value
    }

    /** A `try { … } catch (_: Exception) { null }` around the call. */
    function OrNull(): (r: Option<T>)
      ensures Ok? <==> r.Some?
      ensures Ok? ==> r == Some(value)
    {
      match this
      case Ok(v) => Some(v)
      case Err(_) => None
    }
  }
}
