/** The conventional optional value: JavaScript's `undefined` is `None`. */
module Wrappers {
  datatype Option<+T> = None | Some(value: T)
}
