/** The optional value used wherever JavaScript leaves a field `undefined`. */
module Wrappers {
  datatype Option<+T> = None | Some(value: T)
}
