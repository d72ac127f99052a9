/** The optional value shared by the other modules: JavaScript's "undefined or a value". */
module Options {
  datatype Option<+T> = None | Some(value: T)
}
