/** The value of an operation that may not have one. */
module Options {
  datatype Option<+T> = None | Some(value: T)
}
