/** Option and Result values, and the exceptions the modelled C# code throws. */
module Wrappers {

  /** A value that may be absent (a C# `null` result, a `DateTime?`). */
  datatype Option<+T> = None | Some(value: T)

  /** The outcome of an operation that either returns a value or throws. */
  datatype Result<+R, +E> = Success(value: R) | Failure(error: E) {

    predicate IsFailure() {
      Failure?
    }

    function PropagateFailure<U>(): Result<U, E>
      requires Failure?
    {
      Failure(error)
    }

    function Extract(): R
      requires Success?
    {
      value
    }
  }

  /** The outcome of a `void` operation: it returns normally or throws. */
  datatype Outcome<+E> = Pass | Fail(error: E)

  /** The exceptions thrown by the modelled code, with the parameter name or message it passes. */
  datatype Error =
    | ArgumentNull(paramName: string)                 // ArgumentNullException
    | InvalidArgument(message: string, paramName: string) // ArgumentException
    | InvalidOperation(message: string)               // InvalidOperationException
    | General(message: string)                        // a plain System.Exception
}
