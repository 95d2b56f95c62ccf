/** Go's nil result of a pointer-returning lookup, as a value. */
module Wrappers {

  datatype Option<+T> = None | Some(value: T)
}
