/** The optional-value datatype used for inputs that may fail to parse. */
module Wrappers {

  /** `None` stands for a value that could not be obtained (a failed parse). */
  datatype Option<+T> = None | Some(value: T)
}
