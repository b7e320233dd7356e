// The two result shapes used throughout: a value that may be absent (Go's nil,
// sql.ErrNoRows) and a call that may fail.
module Wrappers {
  datatype Option<+T> = None | Some(value: T)

  datatype Result<+T, +E> = Ok(value: T) | Err(error: E)

  /** A Go pointer to a struct: callees may write through it. */
  class Ptr<T> {
    var val: T

    constructor (v: T)
      ensures val == v
    {
      val := v;
    }
  }
}
