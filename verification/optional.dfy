/** Go's nil-able pointers and error returns, as a value that may be absent. */
module Optional {
  datatype Option<+T> = None | Some(value: T)
}
