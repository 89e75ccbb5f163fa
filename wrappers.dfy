/** Optional values: a Go pointer or interface that may be nil. */
module Wrappers {

  datatype Option<+T> = None | Some(value: T)
}
