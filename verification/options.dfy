/** The optional-value wrapper the rest of the model uses for Swift's `T?`. */
module Options {

  datatype Option<+T> = None | Some(value: T)
}
