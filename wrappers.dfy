/** Optional values and the Python exceptions the modelled scripts can raise. */
module Wrappers {

  datatype Option<+T> = None | Some(value: T)

  /** The class of exception a Python statement raises (UnboundLocalError is a NameError). */
  datatype PyError = IndexError | KeyError | TypeError | NameError

  /** The value a Python expression produces, or the exception it raises. */
  datatype Result<+T> = Ok(value: T) | Err(error: PyError)
}
