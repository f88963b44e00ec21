/** The optional value used wherever the program may get `undefined`. */
module Wrappers {
  datatype Option<+T> = None | Some(value: T)
}
