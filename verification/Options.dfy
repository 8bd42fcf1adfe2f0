/** An optional value: the program's null pointers and "not found" results. */
module Options {
  datatype Option<+T> = None | Some(value: T)
}
