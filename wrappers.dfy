/** Option and Result values standing for Python's `None` and for raised exceptions. */
module Wrappers {

  datatype Option<+T> = None | Some(value: T)

  /** `Failure` carries the message of the exception the Python code would raise. */
  datatype Result<+T> = Success(value: T) | Failure(error: string) {
    predicate IsFailure() { Failure? }

    function PropagateFailure<U>(): Result<U>
      requires Failure?
    {
      Failure(error)
    }

    function Extract(): T
      requires Success?
    {
      value
    }
  }

  /** Outcome of a Python method run for its effects: it returned, or an exception escaped it. */
  datatype Status = Completed | Raised(error: string)

  /** Outcome of a validation check: it returned, or it raised the module's own validation error. */
  datatype Check = Pass | Fail(message: string)
}
