/** An optional value, for JavaScript's `null` cells and "maybe" results. */
module Options {
  datatype Option<T> = None | Some(value: T)
}
