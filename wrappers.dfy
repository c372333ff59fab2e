/** Wrappers used across the model: an optional value
    (a TypeScript `undefined`/`null` or a `NaN`) and a success/failure outcome
    (what the components report through toast messages). */
module Wrappers {

  datatype Option<+T> = None | Some(value: T) {
    /** `x ?? d` */
    function GetOr(default: T): T {
      match this
      case Some(v) => v
      case None => default
    }
  }

  datatype Result<+R, +E> = Success(value: R) | Failure(error: E)
}
