/** The optional value used where the source has `undefined`, `null` or a missed match. */
module Wrappers {
  datatype Option<+T> = None | Some(value: T)
}
