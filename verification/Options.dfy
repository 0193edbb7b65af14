/** The value that may be missing: a failed lookup, an absent field, an exception where a comment says so. */
module Options {
  datatype Option<+T> = None | Some(value: T)
}
