/** The result of code that may panic. */
module Results {
  datatype Result<+T> = Ok(value: T) | Panic
}
