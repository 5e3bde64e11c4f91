/** The optional value used wherever the source yields `null` or `undefined`. */
module Wrappers {
  datatype Option<T> = None | Some(value: T)
}
