/** The optional-value type used throughout the model, standing for Python's `None`. */
module Wrappers {

  datatype Option<+T> = None | Some(value: T)

}
