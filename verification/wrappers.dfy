/** Plain result types shared by every module of the model. */
module Wrappers {

  /** A value that may be absent: Java's and Kotlin's nullable references. */
  datatype Option<+T> = None | Some(value: T)

  /** The outcome of a call that either returns a value or raises an error. */
  datatype Result<+T, +E> = Ok(value: T) | Err(error: E)

  /** The outcome of a call that returns nothing or raises an error. */
  datatype Outcome<+E> = Pass | Fail(error: E)

  /** A call that may suspend the calling thread until another thread acts. */
  datatype Wait<+T> = Blocked | Resumed(value: T)
}
