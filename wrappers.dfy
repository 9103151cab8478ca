/** Option and Result values used across the model (Rust's Option / anyhow::Result). */
module Wrappers {

  datatype Option<+T> = None | Some(value: T)

  /** The outcome of an operation that can fail; `Err` carries no payload because
      the callers in the model only distinguish success from failure. */
  datatype Result<+T> = Ok(value: T) | Err
}
