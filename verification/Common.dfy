/** A value that may be absent: a nullable column or a query without a row. */
module Common {
  datatype Option<+T> = None | Some(value: T)
}
