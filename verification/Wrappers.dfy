/** Failure-carrying results shared by the other modules. */
module Wrappers {

  datatype Option<+T> = None | Some(value: T)

  /** Outcome of an operation that the program answers or refuses with an error code. */
  datatype Result<+T> = Ok(value: T) | Err(code: string)
}
