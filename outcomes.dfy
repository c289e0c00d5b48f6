/** How an operation of the engine ends: normally, or by raising one of the Python exceptions
    the engine raises. */
module Outcomes {

  /** The Python exceptions the modelled code raises. */
  datatype Exception = ValueError | TypeError | NotImplementedError | ZeroDivisionError

  /** A value, or the exception raised instead of producing it. */
  datatype Result<T> = Ok(value: T) | Err(error: Exception)

  datatype Option<T> = None | Some(value: T)

  /** The end of a call that returns nothing useful. */
  datatype Status = Returned | Raised(error: Exception)
}
