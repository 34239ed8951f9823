/** A value that may be missing: the model's stand-in for a C++ pointer that may be null. */
module Wrappers {
  datatype Option<+T> = None | Some(value: T)
}
