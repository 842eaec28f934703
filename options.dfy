/** The optional value used wherever the browser code tests a value for presence. */
module Options {
  datatype Option<+T> = None | Some(value: T)
}
