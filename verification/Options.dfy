// A value that may be missing: a null pointer, or an exception instead of a result.

module Options {
  datatype Option<+T> = None | Some(value: T)
}
