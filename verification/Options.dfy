/** A value that may be missing: the C code's NULL results. */
module Options {
  datatype Option<T> = None | Some(value: T)
}
