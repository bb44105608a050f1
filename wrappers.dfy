/** Option and Result, the two failure-compatible wrappers the codec uses. */
module Wrappers {

  /** A value that may be missing (Java's nullable reference or `Optional`). */
  datatype Option<+T> = None | Some(value: T)

  /** The outcome of a read: a value, or the error the reader threw. */
  datatype Result<+T, +E> = Ok(value: T) | Err(error: E) {

    predicate IsFailure() {
      Err?
    }

    function PropagateFailure<U>(): Result<U, E>
      requires Err?
    {
      Err(error)
    }

    function Extract(): T
      requires Ok?
    {
      value
    }
  }
}
