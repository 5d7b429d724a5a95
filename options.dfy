/** An optional value: a regular-expression capture that may be absent, an error that may be nil. */
module Options {
  datatype Option<+T> = None | Some(value: T)
}
