/** Option, used for null pointers and absent values. */
module Wrappers {
  datatype Option<+T> = None | Some(value: T)
}
