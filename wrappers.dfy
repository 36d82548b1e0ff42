/** Result types shared by the model: Python's `None` and the exceptions
    the inline helpers of the pipeline script can raise. */
module Wrappers {

  /** A value or Python's `None`. */
  datatype Option<+T> = None | Some(value: T)

  /** The Python exceptions the helpers can raise. */
  datatype PyError =
    | IndexError          // a list subscript past the end of the list
    | ZeroDivisionError   // a float divided by zero

  /** A returned value, or the exception raised instead. */
  datatype Result<+T> = Ok(value: T) | Err(error: PyError)
}
