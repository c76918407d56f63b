/** Option, for the places where an oracle (dice, console, clock) runs dry. */
module Wrappers {

  datatype Option<+T> = None | Some(value: T)
}
