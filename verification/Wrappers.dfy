/** Values that may be missing, and equality as a fact. */
module Wrappers {
  datatype Option<+T> = None | Some(value: T)

  /** Equality that is not looked into. */
  ghost predicate Alike<T(!new)>(a: T, b: T) {
    a == b
  }
}
