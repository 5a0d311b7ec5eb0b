/** Small optional-value datatype shared by the dashboard modules. */
module Wrappers {

  /** A value that may be missing (`undefined` or an absent key in the source). */
  datatype Option<+T> = None | Some(value: T)
}
