/** The optional value used throughout: JavaScript's null or undefined, Rust's Option. */
module Options {
  datatype Option<+T> = None | Some(value: T)
}
