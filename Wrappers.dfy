/** Optional values: JavaScript's `undefined`/`null` and Java's `null`. */
module Wrappers {

  datatype Option<+T> = None | Some(value: T)

}
