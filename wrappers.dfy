/** The optional-value datatype used for the session's start timestamp (null until the test starts). */
module Wrappers {

  datatype Option<+T> = None | Some(value: T)
}
