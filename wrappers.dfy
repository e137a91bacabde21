/** Option, for the places where the game code answers `null` or `undefined`. */
module Wrappers {

  datatype Option<+T> = None | Some(value: T)
}
