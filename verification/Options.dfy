/** A value or none: a pointer that may be null, a query that may fail. */
module Options {
  datatype Option<+T> = None | Some(value: T)
}
