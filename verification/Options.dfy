/** An optional value, for nullable columns and missing keys. */
module Options {
  datatype Option<+T> = None | Some(value: T)
}
