/** The optional value returned by the decimal parser. */
module Wrappers {

  datatype Option<+T> = None | Some(value: T)
}
