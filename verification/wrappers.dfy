/** Optional values and success/failure results, standing in for JavaScript's
    `undefined`/`NaN` and for a promise that either resolves or rejects. */
module Wrappers {

  /** `None` models `undefined` or `NaN`; `Some(v)` a defined value. */
  datatype Option<+T> = None | Some(value: T)

  /** `Success(v)` models a resolved promise, `Failure(e)` a rejected one. */
  datatype Result<+T, +E> = Success(value: T) | Failure(error: E)
}
