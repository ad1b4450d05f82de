/** The optional value used where the source accepts `None`. */
module Options {

  datatype Option<+T> = None | Some(value: T)
}
