/** Option and the error-carrying Result used for Python's raised exceptions. */
module Wrappers {

  datatype Option<+T> = None | Some(value: T)

  /** The two exception classes the modelled code raises or catches. */
  datatype PyError = TypeError(msg: string) | ValueError(msg: string)

  /** A Python call either returns a value or raises. */
  datatype Result<+T> = Ok(value: T) | Err(error: PyError)
}
