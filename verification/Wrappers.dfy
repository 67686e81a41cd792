/** Optional values: a reply that may be an error, a lookup that may find nothing. */
module Wrappers {
  datatype Option<+T> = None | Some(value: T)
}
