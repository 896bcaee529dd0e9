/** An optional value: the model of a parameter the caller may leave `undefined`. */
module Wrappers {
  datatype Option<+T> = None | Some(value: T)
}
