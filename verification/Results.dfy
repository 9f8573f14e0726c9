/** Optional values, fallible results, and the zero time: Go's nil pointers, NULL columns, error returns, no time. */
module Results {
  datatype Option<+T> = None | Some(value: T)

  datatype Result<+T> = Ok(value: T) | Err(message: string)

  /** Go's zero time, in nanoseconds since the Unix epoch. */
  const ZERO_TIME: int := -62_135_596_800_000_000_000
}
