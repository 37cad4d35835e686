/** The stock optional value, used where the Go code returns nil or an error. */
module Options {
  datatype Option<+T> = None | Some(value: T)
}
