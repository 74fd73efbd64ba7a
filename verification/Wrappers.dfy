/** Option and Result: the null a lookup may return and the exception a parse may throw. */
module Wrappers {

  /** A value that may be missing; `None` stands for Java's `null`. */
  datatype Option<+T> = None | Some(value: T) {

    /** The value if present, otherwise `default` (Java's `Optional.orElse`). */
    function GetOr(default: T): T {
      match this
      case Some(v) => v
      case None => default
    }
  }

  /** The outcome of an operation that either returns a value or throws. */
  datatype Result<+R, +E> = Success(value: R) | Failure(error: E) {

    predicate IsFailure() {
      Failure?
    }

    function PropagateFailure<U>(): Result<U, E>
      requires Failure?
    {
      Failure(error)
    }

    function Extract(): R
      requires Success?
    {
      value
    }
  }
}
