/** Optional values, used wherever the Go code returns a nil pointer or a missing value. */
module Wrappers {

  datatype Option<+T> = None | Some(value: T)
}
