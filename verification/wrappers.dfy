/** Small optional-value datatype shared by the repository and the configuration modules. */
module Wrappers {

  /** A value that may be absent: Go's nil pointer or nil error. */
  datatype Option<+T> = None | Some(value: T)
}
