/** Optional values, for JavaScript's `undefined`/`null` and for operations that may fail. */
module Wrappers {

  datatype Option<+T> = None | Some(value: T)

}
