/** A value, or none: what the C code returns as a pointer that may be NULL. */
module Options {
  datatype Option<+T> = None | Some(value: T)
}
