/** The optional value used wherever the game leaves a field unset (`undefined`/`null`). */
module Wrappers {

  datatype Option<+T> = None | Some(value: T)
}
