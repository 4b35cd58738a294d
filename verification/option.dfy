/** An optional value: the NULL results and boolean failure returns of the engine. */
module Options {
  datatype Option<T> = None | Some(value: T)
}
