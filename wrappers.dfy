/** Failure-carrying results shared by the whole model.
    Go returns `(value, error)` pairs and occasionally panics (nil-pointer dereference,
    slicing out of range); both are explicit outcomes here. */
module Wrappers {

  datatype Option<T> = None | Some(value: T)

  /** Why a computation did not produce a value: a Go `error` or a Go run-time panic. */
  datatype Failure = Error(msg: string) | Panic(reason: string)

  datatype Result<T> = Ok(value: T) | Fail(failure: Failure) {
    predicate IsPanic() { Fail? && failure.Panic? }
  }
}
