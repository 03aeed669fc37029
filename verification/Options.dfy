/** What stands for the C code's NULL pointers and failure returns. */
module Options {
  datatype Option<+T> = None | Some(value: T)
}
