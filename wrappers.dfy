/** The optional value a regular-expression `exec` or a dictionary lookup returns. */
module Wrappers {

  datatype Option<+T> = None | Some(value: T)
}
