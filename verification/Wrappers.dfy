/** Option values for the source's `undefined`, `null` and missing links. */
module Wrappers {
  datatype Option<+T> = None | Some(value: T)
}
