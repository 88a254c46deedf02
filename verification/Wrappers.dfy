/** A value that may be absent: the model's form of Go's nil pointers. */
module Wrappers {
  datatype Option<+T> = None | Some(value: T)
}
