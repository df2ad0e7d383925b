/** The optional-value type shared by the modules of the model. */
module Wrappers {

  /** A value that may be absent: a nil pointer, a failed lookup, an error without detail. */
  datatype Option<+T> = None | Some(value: T)
}
