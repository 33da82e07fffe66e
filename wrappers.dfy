/** Option and Result, the two shapes the system uses for absent values and fallible calls. */
module Wrappers {

  /** Rust's `Option` and TypeScript's `T | null`. */
  datatype Option<+T> = None | Some(value: T)

  /** Rust's `Result<T, E>`; the front end sees `Err` as a rejected `invoke`. */
  datatype Result<+T, +E> = Ok(value: T) | Err(error: E)
}
