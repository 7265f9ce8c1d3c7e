/** The optional value used where the JavaScript code returns `null` or reads a missing property. */
module Wrappers {

  datatype Option<+T> = None | Some(value: T)
}
