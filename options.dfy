/** The optional value used where the source has a nullable result. */
module Options {
  datatype Option<T> = None | Some(value: T)
}
