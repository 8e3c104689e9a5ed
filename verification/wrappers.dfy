/**
  The two shapes of partial results in the model: `Option` for a lookup or a
  parse that may yield nothing, and `Result` for a run that may stop with an
  error. `Result` supports Dafny's `:-` so that the first error ends a run, as
  an uncaught exception ends the script.
 */
module Wrappers {

  /** A value that may be absent: a search that finds nothing, text `int()` rejects. */
  datatype Option<+T> = None | Some(value: T)

  /** The outcome of a run that may raise an error. */
  datatype Result<+R, +E> = Success(value: R) | Failure(error: E) {

    predicate IsFailure() {
      Failure?
    }

    function PropagateFailure<U>(): Result<U, E>
      requires Failure?
    {
      Failure(error)
    }

    function Extract(): R
      requires Success?
    {
      value
    }
  }
}
