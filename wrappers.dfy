/** Small shared wrapper types. */
module Wrappers {

  /** A value that may be missing, as Python's `None` or a present value. */
  datatype Option<+T> = None | Some(value: T)
}
