/** The optional-value datatype used across the model in place of Python's `None`. */
module Wrappers {

  datatype Option<+T> = None | Some(value: T)

}
