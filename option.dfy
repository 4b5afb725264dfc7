/** A value that may be absent: a line that could not be read, a price that did not parse. */
module Options {
  datatype Option<T> = None | Some(value: T)
}
