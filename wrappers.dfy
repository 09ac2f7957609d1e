/** Optional values, used wherever the source has a value that may be null or missing. */
module Wrappers {

  datatype Option<+T> = None | Some(value: T)
}
