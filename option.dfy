/** The optional value used for operations that can fail. */
module Optional {

  datatype Option<T> = None | Some(value: T)
}
