/** Optional values: JavaScript's `undefined`, `null` or an absent property. */
module Wrappers {
  datatype Option<+T> = None | Some(value: T)
}
