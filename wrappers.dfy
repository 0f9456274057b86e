/** Small failure-carrying datatypes shared by the model. */
module Wrappers {

  /** A value that may be absent: a C pointer that may be NULL, a map lookup that may miss. */
  datatype Option<+T> = None | Some(value: T)
}
