/** What the other modules share and no service owns. */
module Wrappers {
  datatype Option<+T> = None | Some(value: T)
}
