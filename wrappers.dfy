/** An optional value: a result that may be missing, or an operation that may raise. */
module Wrappers {
  datatype Option<+T> = None | Some(value: T)
}
