/** Failure-carrying values for the places where the trainer raises or has no answer. */
module Wrappers {

  datatype Option<+T> = None | Some(value: T)

  /** `Err` stands for a Python exception that ends the call it is raised in. */
  datatype Result<+T, +E> = Ok(value: T) | Err(error: E)
}
