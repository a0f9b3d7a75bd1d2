/** The optional value used wherever the game returns Python's `None`. */
module Options {

  datatype Option<+T> = None | Some(value: T)
}
