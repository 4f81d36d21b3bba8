/** The optional-value datatype used by lookups and parsers throughout the model. */
module Wrappers {

  datatype Option<+T> = None | Some(value: T)
}
