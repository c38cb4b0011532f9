/** Option stands in for a Java reference that may be null, or for a call that throws. */
module Wrappers {
  datatype Option<+T> = None | Some(value: T)
}
