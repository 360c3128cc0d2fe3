/** The conventional Some/None datatype: a nullable column or an absent row. */
module Options {
  datatype Option<+T> = None | Some(value: T)
}
