/** Kotlin's nullable values (`String?`) as an explicit option type. */
module Optional {

  datatype Option<+T> = None | Some(value: T)
}
