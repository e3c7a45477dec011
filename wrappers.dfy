/** The optional value used where the C++ code answers "not found" (npos) or throws. */
module Wrappers {
  datatype Option<+T> = None | Some(value: T)
}
