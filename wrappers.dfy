/** An optional value: the result of a lookup or parse that may find nothing. */
module Wrappers {
  datatype Option<+T> = None | Some(value: T)
}
