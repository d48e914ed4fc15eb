/** Failure-carrying values shared by every module: Rust's Option and Result. */
module Wrappers {

  datatype Option<T> = None | Some(value: T)

  /** `Err` carries the source's error payload (a message, an index, or nothing). */
  datatype Result<T, E> = Ok(value: T) | Err(error: E)
}
