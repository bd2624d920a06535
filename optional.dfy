/** The optional value of Swift's `T?`. */
module Optional {

  datatype Option<+T> = None | Some(value: T)
}
