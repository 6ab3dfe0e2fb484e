/** Failure-compatible wrappers and the exceptions the cross-check engine raises. */
module Base {

  datatype Option<+T> = None | Some(value: T)

  /** The Python exceptions that escape the modelled code. */
  datatype Error =
    | ValueError(message: string)
    | IndexError
    | TypeError
    | RuntimeError(message: string)

  /** A value or the exception that was raised instead. */
  datatype Result<+R> = Success(value: R) | Failure(error: Error) {
    predicate IsFailure() {
      Failure?
    }

    function PropagateFailure<U>(): Result<U>
      requires Failure?
    {
      Failure(error)
    }

    function Extract(): R
      requires Success?
    {
      value
    }
  }
}
