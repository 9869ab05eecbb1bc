/** The optional value used wherever the source writes `null` or `undefined`. */
module Options {
  datatype Option<+T> = None | Some(value: T)
}
