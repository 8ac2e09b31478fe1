/** A value that may be missing: a null pointer, an empty answer. */
module Options {
  datatype Option<T> = None | Some(value: T)
}
