/** Values that stand in for Python's `None`, its exceptions and `return None`. */
module Outcomes {

  datatype Option<T> = None | Some(value: T)

  /** The exception classes the catalog code raises, with the text it passes them. */
  datatype PyError =
    | ValueError(message: string)
    | KeyError(key: string)
    | TypeError(message: string)
    | EnvironmentError(message: string)

  /** A call that returns a value or raises. */
  datatype Result<T> = Ok(value: T) | Err(error: PyError)

  /** A call that returns nothing (`None`) or raises. */
  datatype Outcome = Done | Raised(error: PyError)
}
