/** The one small datatype every component shares: a value that may be missing (`null` in the services). */
module Options {
  datatype Option<+T> = None | Some(value: T)
}
