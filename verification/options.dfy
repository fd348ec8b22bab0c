/** The optional value used wherever `SmartPlayerOld` returns a card or null. */
module Options {

  datatype Option<+T> = None | Some(value: T)
}
