/** An optional value: the `null` a JavaScript function may return in place of a value. */
module Options {
  datatype Option<T> = None | Some(value: T)
}
