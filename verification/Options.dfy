/** The optional value used where the source returns a found flag or a nil pointer. */
module Options {
  datatype Option<+T> = None | Some(value: T)
}
