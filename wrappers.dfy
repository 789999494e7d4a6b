/** The optional value used wherever the application may have nothing: a
    missing lookup, a rejected form, an empty export. */
module Wrappers {
  datatype Option<T> = None | Some(value: T)
}
