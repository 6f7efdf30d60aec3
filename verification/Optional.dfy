/** An optional value, as std::optional. */
module Optional {
  datatype Option<+T> = None | Some(value: T)
}
