/** The optional values of the form: a TypeScript `T | undefined`. */
module Optional {

  datatype Option<+T> = None | Some(value: T)

  /** An optional list read as a list: `undefined` holds no rows. */
  function OrEmpty<T>(o: Option<seq<T>>): seq<T>
  {
    match o
    case None => []
    case Some(s) => s
  }
}
