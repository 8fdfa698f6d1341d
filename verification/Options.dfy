/** Stands for a C++ result that may be absent. */
module Options {
  datatype Option<+T> = None | Some(value: T)
}
