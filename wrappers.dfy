/** Values that stand for a missing entry or a raised error. */
module Wrappers {

  /** An entry that may be absent; `None` is also the singleton providers' placeholder. */
  datatype Option<+T> = None | Some(value: T)

  /** The outcome of an operation that raises `InjectionError` on failure. */
  datatype Result<+R, +E> = Success(value: R) | Failure(error: E)
}
