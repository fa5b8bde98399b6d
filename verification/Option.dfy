/** A value that may be absent: a nil reference or error, a NULL column, a missing row. */
module Options {

  datatype Option<+T> = None | Some(value: T)
}
