/** The optional value that several components share. */
module Options {
  datatype Option<+T> = None | Some(value: T)
}
