/** Optional values: the model of Go's nil-able pointers and of a nil error. */
module Wrappers {
  datatype Option<+T> = None | Some(value: T)
}
