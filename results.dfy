/** The failure a combination reports instead of throwing System.ArgumentException */
module Results {

  /** The argument exception the geometry types throw, carrying the offending parameter's name */
  datatype ArgumentError = CountMismatch(paramName: string)

  datatype Result<T> = Ok(value: T) | Err(error: ArgumentError)
}
