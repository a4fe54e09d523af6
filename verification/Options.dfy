/** The absent-or-present value used for null pointers, empty results and unset fields. */
module Options {
  datatype Option<+T> = None | Some(value: T)
}
