/** Small helper datatypes shared by the other modules. */
module Wrappers {

  /** A value that may be absent (a NULL pointer in the C code). */
  datatype Option<+T> = None | Some(value: T)
}
