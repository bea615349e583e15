// Optional values, for the source's null pointers and iterators that reached end().
module Wrappers {
  datatype Option<+T> = None | Some(value: T)
}
