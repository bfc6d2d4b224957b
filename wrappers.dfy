/** Optional values and the outcome of a call that can throw. */
module Wrappers {

  /** A value that may be absent; None stands for JavaScript's `undefined`. */
  datatype Option<+T> = None | Some(value: T)

  /** The outcome of an awaited call: its value, or the `message` of the error it threw. */
  datatype Result<+T> = Ok(value: T) | Err(message: string)

  /** The outcome of an awaited call whose value the caller ignores. */
  datatype Outcome = Pass | Fail(message: string)
}
