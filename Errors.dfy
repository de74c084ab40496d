/** Error values standing for the exceptions the Python code raises, and the
    result types that carry them instead of raising. */
module Errors {

  datatype Option<+T> = None | Some(value: T)

  datatype Error =
    | ValueError(message: string)        // also int() on a malformed literal
    | ConnectionError(message: string)
    | IndexError(message: string)
    | AssertionError
    | ZeroDivisionError
    | Exception(message: string)         // a bare `raise Exception(...)`

  /** The value a Python function returns, or the exception it raises. */
  datatype Result<+T> = Ok(value: T) | Err(error: Error)

  /** The outcome of a Python function that returns None or raises. */
  datatype Outcome = Done | Failed(error: Error)
}
