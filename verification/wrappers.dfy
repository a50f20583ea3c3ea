/** The optional value the geometry queries return. */
module Wrappers {

  datatype Option<T> = None | Some(value: T)
}
