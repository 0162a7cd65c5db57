/** Option, as the rest of the model uses it for "may be absent". */
module Wrappers {
  datatype Option<+T> = None | Some(value: T)
}
