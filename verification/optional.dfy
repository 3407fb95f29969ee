/** The optional value returned by operations that may fail, such as parsing. */
module Optional {

  datatype Option<+T> = None | Some(value: T)

}
