/** The optional-value datatype used throughout the model. */
module Options {
  datatype Option<+T> = None | Some(value: T)
}
