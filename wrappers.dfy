/** The optional value used wherever the game's code returns or stores a Swift optional of a value type. */
module Wrappers {

  datatype Option<+T> = None | Some(value: T)
}
