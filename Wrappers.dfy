/** The optional-value datatype used for a pin's pending level. */
module Wrappers {

  datatype Option<+T> = None | Some(value: T)
}
