/** The optional value used wherever the source has "no result" (a null pointer, an unset index). */
module Wrappers {
  datatype Option<+T> = None | Some(value: T)
}
