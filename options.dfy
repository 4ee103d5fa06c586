/** The optional value used for JavaScript's `undefined` and for "no error". */
module Options {
  datatype Option<+T> = None | Some(value: T)
}
