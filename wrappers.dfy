/** Optional values and tagged results, used where the source returns
    `undefined`/`null` or throws. */
module Wrappers {

  /** `None` stands for JavaScript's `undefined` (or `null`, where a field is nullable). */
  datatype Option<+T> = None | Some(value: T) {
    function GetOr(default: T): T {
      match this
      case Some(v) => v
      case None => default
    }
  }

  /** `Err` stands for a thrown exception or a rejected promise. */
  datatype Result<+T, +E> = Ok(value: T) | Err(error: E)
}
