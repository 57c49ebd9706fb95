/** Helper datatypes for absent values, results and thrown exceptions. */
module Wrappers {

  /** A value that may be absent; `None` stands for Java's `null`. */
  datatype Option<+T> = None | Some(value: T)

  /** The value of a computation that may throw; `Failure` carries the exception. */
  datatype Result<+R, +E> = Success(value: R) | Failure(error: E)

  /** The outcome of a `void` Java method that may throw. */
  datatype Outcome<+E> = Pass | Fail(error: E)
}
