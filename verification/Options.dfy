/** A value that may be absent: a NULL column, a missing key, null. */
module Options {
  datatype Option<+T> = None | Some(value: T)
}
