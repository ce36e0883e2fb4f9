/** The optional value used at every untyped boundary of the model: a null
    array element, a non-numeric amount, an unset rate, a call not made. */
module Wrappers {
  datatype Option<+T> = None | Some(value: T)
}
