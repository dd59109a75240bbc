/** Failure-compatible optional value, used for the `Result<_, ()>` returns of the decoders. */
module Wrappers {

  /** `Some(v)` for `Ok(v)`, `None` for `Err(())`. */
  datatype Option<+T> = None | Some(value: T)
}
