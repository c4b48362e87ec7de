/** The usual Some/None wrapper, for the values the server keeps as `null`/`undefined`. */
module Optional {
  datatype Option<+T> = None | Some(value: T)
}
