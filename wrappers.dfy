/** Option type for the partial operations of the model (parsing, lookup, decoding). */
module Wrappers {
  datatype Option<+T> = None | Some(value: T)
}
