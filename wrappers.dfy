/** The optional value used by the searches of both programs. */
module Wrappers {
  datatype Option<T> = None | Some(value: T)
}
