/** Option and Result, the failure-compatible wrappers the model uses for Ruby's
    `nil` results and for raised exceptions. */
module Wrappers {

  /** `None` plays the part of Ruby's `nil`. */
  datatype Option<+T> = None | Some(value: T)

  /** `Err` plays the part of an exception raised by the Ruby code. */
  datatype Result<+T, +E> = Ok(value: T) | Err(error: E) {

    predicate IsFailure() {
      Err?
    }

    function PropagateFailure<U>(): Result<U, E>
      requires Err?
    {
      Err(error)
    }

    function Extract(): T
      requires Ok?
    {
      value
    }
  }
}
