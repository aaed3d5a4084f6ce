/** A value that may be missing: Go's nil pointers and nil errors. */
module Wrappers {
  datatype Option<+T> = None | Some(value: T)
}
