/** A value that may be missing: a NULL column or an optional argument. */
module Options {

  datatype Option<+T> = None | Some(value: T)
}
