/** Optional values and fallible results, standing in for Go's `(value, error)` pairs. */
module Wrappers {
  datatype Option<+T> = None | Some(value: T) {
    /** The value of an update, or the current one when there is none. */
    function Or(current: T): T {
      if Some? then value else current
    }
  }

  datatype Result<+T, +E> = Ok(value: T) | Err(error: E) {
    predicate IsFailure() { Err? }

    function PropagateFailure<U>(): Result<U, E>
      requires Err?
    {
      Err(error)
    }

    function Extract(): T
      requires Ok?
    {
      value
    }
  }
}
