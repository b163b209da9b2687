/** Option, the one wrapper type every other module uses. */
module Wrappers {
  datatype Option<+T> = None | Some(value: T)
}
