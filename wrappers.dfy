/** The optional value used wherever Ruby code yields `nil` or a value. */
module Wrappers {
  datatype Option<+T> = None | Some(value: T)
}
