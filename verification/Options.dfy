/** The value-or-nothing type the other modules share: a null, an undefined or an absent row. */
module Options {
  datatype Option<+T> = None | Some(value: T)
}
