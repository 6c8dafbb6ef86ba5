/** Optional values: a JSON key that may be absent, a conversion that may fail. */
module Wrappers {
  datatype Option<+T> = None | Some(value: T)
}
