/** Optional values and results, shared by the project and account-client models. */
module Wrappers {

  /** A value that may be absent; `None` plays the part of Go's `nil`. */
  datatype Option<+T> = None | Some(value: T)

  /** The outcome of a step that either yields a value or fails with an error. */
  datatype Result<+T, +E> = Ok(value: T) | Err(error: E)

  /**
   * A Go `error` value produced outside the model (the operating system, the
   * HTTP transport, the body reader or the JSON decoder), known only by its text.
   */
  datatype Cause = Cause(text: string)
}
