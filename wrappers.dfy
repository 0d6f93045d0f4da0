/** Optional values: the source's `null`/`undefined` alternatives. */
module Wrappers {
  datatype Option<+T> = None | Some(value: T)
}
