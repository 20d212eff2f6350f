/** The optional value of Rust's `Option`, used for a record's amount and for checked arithmetic. */
module Options {
  datatype Option<+T> = None | Some(value: T)
}
