/** Optional values and success-or-failure results, used in place of Ruby's nil and raised exceptions. */
module Wrappers {

  /** `None` stands for an absent value (Ruby's nil where a value may be missing). */
  datatype Option<+T> = None | Some(value: T)

  /** The outcome of an operation that either returns a value or raises an error. */
  datatype Result<+R, +E> = Success(value: R) | Failure(error: E)
}
