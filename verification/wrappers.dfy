/** Failure-carrying wrappers shared by the pipeline stages. */
module Wrappers {

  /** A value that may be absent (a missing commission, an unbinned row). */
  datatype Option<+T> = None | Some(value: T)

  /** The outcome of a stage that can fail as a whole. */
  datatype Result<+T, +E> = Ok(value: T) | Err(error: E)
}
