/** The optional value used for lookups and failing steps. */
module Wrappers {
  datatype Option<T> = None | Some(value: T)
}
