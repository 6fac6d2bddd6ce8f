/** The optional value returned where the source returns `T | undefined`. */
module Wrappers {
  datatype Option<+T> = None | Some(value: T)
}
