/** The optional value used for Go's `error` results (None plays the role of nil). */
module Wrappers {
  datatype Option<+T> = None | Some(value: T)
}
