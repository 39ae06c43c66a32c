/** A value that may be missing: an absent field, a failed call, a refused input. */
module Options {
  datatype Option<+T> = None | Some(value: T)
}
