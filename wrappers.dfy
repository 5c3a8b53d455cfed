/** Option values for the places where the backend uses `undefined` or `null`. */
module Wrappers {
  datatype Option<+T> = None | Some(value: T)
}
