/** The optional value used for dictionary look-ups and searches. */
module Wrappers {
  datatype Option<+T> = None | Some(value: T)
}
