/** A value that may be missing: `null` or `undefined` in the sources. */
module Options {
  datatype Option<+T> = None | Some(value: T)
}
