/** The optional value used for C#'s nullable references. */
module Wrappers {

  datatype Option<+T> = None | Some(value: T)
}
