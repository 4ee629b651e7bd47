/** Option type shared by the colour parser and the text formatting. */
module Wrappers {
  datatype Option<+T> = None | Some(value: T)
}
