/** Values that may be absent, in place of the source's nil pointers. */
module Options {
  datatype Option<+T> = None | Some(value: T)
}
