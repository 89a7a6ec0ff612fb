/** A value that may be absent. */
module Options {
  datatype Option<+T> = None | Some(value: T)

  function Or<T>(o: Option<T>, default: T): T {
    match o
    case None => default
    case Some(v) => v
  }
}
