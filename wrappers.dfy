/** The optional value used for absent dataset fields and unset options. */
module Wrappers {
  datatype Option<T> = None | Some(value: T)
}
