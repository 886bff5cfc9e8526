/** Optional values and error-carrying results, standing in for the source's
    `null`/`undefined` and for promises that either resolve or reject. */
module Wrappers {

  /** `None` models JavaScript's `null` or `undefined`. */
  datatype Option<+T> = None | Some(value: T)

  /** `Ok` is a resolved promise or a normal return; `Err` a rejection or a throw. */
  datatype Result<+T, +E> = Ok(value: T) | Err(error: E)

  /** The set holding the value of `o`, if any. */
  function Elements<T>(o: Option<T>): set<T>
  {
    match o
    case None => {}
    case Some(v) => {v}
  }
}
