/** The option type used where the sources return nil, null, -1 or an error. */
module Options {
  datatype Option<+T> = None | Some(value: T)
}
