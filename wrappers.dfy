/** The optional-value type shared by the renamer's modules. */
module Wrappers {

  datatype Option<+T> = None | Some(value: T)
}
