/** The optional-value datatype used wherever the source may produce `undefined`. */
module Wrappers {

  datatype Option<+T> = None | Some(value: T)
}
