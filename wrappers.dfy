/** Optional values: a boundary list that may be missing, a nearest vertex
    that may not exist, a key bound to no control. */
module Wrappers {
  datatype Option<T> = None | Some(value: T)
}
