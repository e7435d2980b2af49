/** Optional values and success-or-error results used throughout the model. */
module Wrappers {

  /** A value that may be missing: `None` where the server would find no key
      or an unparseable string. */
  datatype Option<+T> = None | Some(value: T)

  /** The outcome of a step that can fail with an error of type `E`. */
  datatype Result<+T, +E> = Success(value: T) | Failure(error: E)
}
