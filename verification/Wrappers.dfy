/** The optional value used throughout the model for the source's `None`. */
module Wrappers {

  datatype Option<+T> = None | Some(value: T)
}
