/** Shared wrapper types. */
module Base {

  /** A value that may be missing; JavaScript's `undefined` is `None`. */
  datatype Option<+T> = None | Some(value: T)
}
