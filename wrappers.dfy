/** Optional values: a PHP value that may be missing, null or false. */
module Wrappers {
  datatype Option<+T> = None | Some(value: T)
}
