/** The optional value used wherever the JavaScript code has `null`. */
module Wrappers {

  datatype Option<+T> = None | Some(value: T)
}
