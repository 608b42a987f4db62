/** A value that may be missing: a null pointer, npos, an absent map entry. */
module Options {
  datatype Option<+T> = None | Some(value: T)
}
