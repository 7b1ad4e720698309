/** Option, for the places where the JavaScript code answers `null` or throws. */
module Wrappers {

  datatype Option<+T> = None | Some(value: T)
}
