/** Optional values, used for JavaScript's `undefined`/`null` and for "no diagnostic". */
module Wrappers {

  datatype Option<+T> = None | Some(value: T)

  /** The `Either` of prelude-ts: `Left` carries a captured error, `Right` a value. */
  datatype Either<+T> = Left(error: string) | Right(value: T)
}
