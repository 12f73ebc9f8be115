/** The optional-value type shared by the other modules. */
module Wrappers {
  /** A value that may be missing; JavaScript's NaN and absent storage keys map to None. */
  datatype Option<+T> = None | Some(value: T)
}
