/** The optional value used where the game's code holds a reference that may be null. */
module Opt {

  datatype Option<+T> = None | Some(value: T)
}
