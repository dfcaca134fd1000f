/** A value that may be missing: a null pointer, an unset alarm, a failed parse. */
module Options {
  datatype Option<T> = None | Some(value: T)
}
