/** Failure-compatible datatypes used across the model: Java's `null` becomes `Option`,
    a thrown exception becomes the `Failure` of a `Result` or the `Fail` of an `Outcome`. */
module Wrappers {

  /** A value that may be absent (a nullable Java reference). */
  datatype Option<+T> = None | Some(value: T)

  /** The outcome of an operation that returns a value or throws an exception. */
  datatype Result<+R, +E> = Success(value: R) | Failure(error: E)

  /** The outcome of an operation that returns nothing or throws an exception. */
  datatype Outcome<+E> = Pass | Fail(error: E)

  /** The argument of a Java `equals(Object o)`: `null`, an object of the receiver's own
      class, or an object of any other class. */
  datatype EqualsArg<+T> = Null | SameClass(value: T) | OtherClass

  /** What `Objects.requireNonNull` throws. */
  datatype NullPointerException = NullPointerException
}
