/** Failure-compatible wrappers shared by the other modules. */
module Outcomes {

  /** An optional value; usable with `:-` so that decoders read top to bottom. */
  datatype Option<+T> = None | Some(value: T) {
    predicate IsFailure() {
      None?
    }

    function PropagateFailure<U>(): Option<U>
      requires None?
    {
      None
    }

    function Extract(): T
      requires Some?
    {
      value
    }
  }

  /** A value, or the error a Python function would have raised instead. */
  datatype Result<+T, +E> = Ok(value: T) | Err(error: E)
}
