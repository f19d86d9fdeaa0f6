/** The one datatype shared by modules that otherwise have nothing in common. */
module Options {
  datatype Option<+T> = None | Some(value: T)
}
