/** A value that may be missing: the C code's pointers that may be NULL. */
module Options {
  datatype Option<+T> = None | Some(value: T)
}
