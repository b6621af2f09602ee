/** Plain Option and Result datatypes shared by the model (matched on directly, not used with `:-`). */
module Wrappers {

  /** A value that may be missing; also stands for a Java reference that may be null. */
  datatype Option<+T> = None | Some(value: T)

  /** The outcome of an operation that either returns a value or raises an exception. */
  datatype Result<+T, +E> = Ok(value: T) | Err(error: E)
}
