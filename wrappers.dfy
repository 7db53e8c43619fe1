/** A JavaScript value that is either `null` or present. */
module Wrappers {
  datatype Option<+T> = None | Some(value: T)
}
