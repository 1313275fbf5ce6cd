/** The optional value used by the readers of the rendered text. */
module Options {
  datatype Option<T> = None | Some(value: T)
}
