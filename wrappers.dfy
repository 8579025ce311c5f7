/** Optional values, used for storage entries that may be missing. */
module Wrappers {
  datatype Option<+T> = None | Some(value: T)
}
