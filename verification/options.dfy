/** Kotlin's nullable values, as an explicit option type. */
module Options {

  datatype Option<+T> = None | Some(value: T)
}
