/** Failure-carrying values shared by the mesh generator, the uniform binder
    and the shader pipeline. */
module Wrappers {

  /** Absent-or-present value; used for a JavaScript property that may be `undefined`. */
  datatype Option<+T> = None | Some(value: T)

  /** Outcome of an operation that may throw: the value it returns, or what it throws. */
  datatype Result<+T, +E> = Success(value: T) | Failure(error: E)
}
