/** Option, for values that may be absent (a MiniGo coordinate that is a pass,
    an SGF argument given as Python's None), and Result, for a call that may
    raise. */
module Wrappers {

  datatype Option<+T> = None | Some(value: T)

  /** The outcome of a call that either returns a value or raises an error. */
  datatype Result<+T, +E> = Success(value: T) | Failure(error: E)

}
