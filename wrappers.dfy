/** Optional values: the source's `None`/`null` and "key absent" cases. */
module Wrappers {
  datatype Option<+T> = None | Some(value: T)
}
