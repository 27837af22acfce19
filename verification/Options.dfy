/** The optional value: the source's `null`, `undefined` or `-1`. */
module Options {
  datatype Option<+T> = None | Some(value: T)
}
