/** Python's `Optional[...]` and SQL's nullable columns, as a datatype. */
module Options {

  datatype Option<+T> = None | Some(value: T)
}
