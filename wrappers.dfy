/** Option and Result values used where the adapter reports an absent value or raises. */
module Wrappers {

  datatype Option<+T> = None | Some(value: T)

  /** Ok carries a computed value; Err carries what the Python code would raise with. */
  datatype Result<+T, +E> = Ok(value: T) | Err(error: E)
}
