/** The optional values used across the model: a nullable column, an absent dictionary key. */
module Wrappers {
  datatype Option<+T> = None | Some(value: T)
}
