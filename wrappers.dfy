/** The optional value used throughout the models for JavaScript's `null`
    (or an absent property). */
module Wrappers {
  datatype Option<T> = None | Some(value: T)
}
