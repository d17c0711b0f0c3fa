/** Failure-compatible wrappers shared by the rest of the model:
    `Option` stands for a JavaScript value that may be `undefined`,
    `Result` for an operation that either returns or throws. */
module Wrappers {

  datatype Option<+T> = None | Some(value: T) {

    /** The wrapped value, or `default` when absent (JavaScript's `??`). */
    function GetOr(default: T): T {
      match this
      case Some(v) => v
      case None => default
    }
  }

  datatype Result<+R, +E> = Success(value: R) | Failure(error: E) {

    predicate IsFailure() {
      Failure?
    }

    function PropagateFailure<U>(): Result<U, E>
      requires Failure?
    {
      Failure(error)
    }

    function Extract(): R
      requires Success?
    {
      value
    }

    /** Re-labels the error, keeping a success as it is. */
    function MapFailure<NewE>(relabel: E -> NewE): Result<R, NewE> {
      match this
      case Success(v) => Success(v)
      case Failure(e) => Failure(relabel(e))
    }
  }
}
