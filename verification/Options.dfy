/** A value that may be absent: a SQL NULL, a missing reading, an empty reply. */
module Options {
  datatype Option<+T> = None | Some(value: T)
}
