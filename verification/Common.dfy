/** A value that may be absent: a NULL column, a missing key, an empty result. */
module Common {
  datatype Option<+T> = None | Some(value: T)
}
