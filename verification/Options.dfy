/** A value that may be missing: an absent field, an unset timer, a name with no link. */
module Options {
  datatype Option<+T> = None | Some(value: T)
}
