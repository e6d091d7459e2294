/** Failure-carrying datatypes used for the error paths of the model. */
module Wrappers {

  /** An optional value: a nullable PHP property or an absent storage column. */
  datatype Option<+T> = None | Some(value: T)

  /** Either a successful value or the error the PHP code would throw. */
  datatype Result<+R, +E> = Success(value: R) | Failure(error: E)

  /** The outcome of a step that returns nothing but may throw. */
  datatype Outcome<+E> = Pass | Fail(error: E)
}
