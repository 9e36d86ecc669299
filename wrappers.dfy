/** The optional value shared by the modules: a NULL pointer or a present one. */
module Wrappers {

  datatype Option<T> = None | Some(value: T)
}
