// The exceptions raised by timeboard (timeboard/exceptions.py) and the Python
// built-in exceptions that the modelled code raises, as one error datatype,
// together with the result wrappers used to model raising.

module Errors {

  datatype Error =
    | OutOfBounds          // OutOfBoundsError (a LookupError)
    | PartialOutOfBounds   // PartialOutOfBoundsError
    | VoidInterval         // VoidIntervalError
    | UnacceptablePeriod   // UnacceptablePeriodError
    | ValueError
    | TypeError
    | KeyError
    | AttributeError
    | IndexError
    | RuntimeError
    | ZeroDivision         // ZeroDivisionError

  /** The value a call returns, or the exception it raises. */
  datatype Result<T> = Ok(value: T) | Err(error: Error)

  /** The outcome of a call that returns nothing useful. */
  datatype Outcome = Pass | Fail(error: Error)

  datatype Option<T> = None | Some(value: T)
}
