/** The two standard sum types the cell's API speaks in: `Option` for the accessors and
    `Result` for fallible computations and for the consuming conversions that hand the cell back. */
module Wrappers {

  /** Either a value or nothing. */
  datatype Option<T> = None | Some(value: T)

  /** Either a success value or an error value. */
  datatype Result<T, E> = Ok(value: T) | Err(error: E)
}
