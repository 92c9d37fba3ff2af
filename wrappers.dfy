/** Missing values and error returns shared by the other modules. */
module Wrappers {

  /** A value that may be absent; in the velocity model `None` stands for NaN. */
  datatype Option<+T> = None | Some(value: T)

  /** The outcome of an operation that raises on bad input in the source. */
  datatype Result<+T, +E> = Ok(value: T) | Err(error: E)
}
