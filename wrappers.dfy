/** Optional values: JavaScript's `undefined`/`null`/`NaN` where the source tests for them. */
module Wrappers {

  datatype Option<+T> = None | Some(value: T)
}
