/** The optional value used throughout: Python's `None` or a value. */
module Options {
  datatype Option<+T> = None | Some(value: T)
}
