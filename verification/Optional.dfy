/** The result of an operation that may have none. */
module Optional {
  datatype Option<+T> = None | Some(value: T)
}
