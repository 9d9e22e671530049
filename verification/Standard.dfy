/** The two result types shared by every other module. */
module Standard {
  /** A value that may be absent: the source's `undefined` and `null`. */
  datatype Option<+T> = None | Some(value: T)

  /** A computed value, or the error the source throws instead. */
  datatype Result<+T, +E> = Ok(value: T) | Err(error: E)
}
