/** Failure-carrying datatypes shared by the whole model: a value that may be
    absent (a SQL NULL, a missing row, a cache slot) and the outcome of an
    operation that may raise. */
module Wrappers {

  datatype Option<+T> = None | Some(value: T) {
    function GetOr(default: T): T {
      match this
      case Some(v) => v
      case None => default
    }
  }

  datatype Result<+T, +E> = Ok(value: T) | Err(error: E) {
    predicate IsFailure() {
      Err?
    }
  }
}
