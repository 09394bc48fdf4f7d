/** Failure-carrying results shared by the codecs and the block parser. */
module Results {

  /** A value that may be absent: a Java `null` return, or an option not given. */
  datatype Option<+T> = None | Some(value: T)

  /** Why a binary read stopped: the stream ended inside a field, or an array
      count prefix was negative (Java's `new int[n]` refuses it). */
  datatype ReadError = Truncated | NegativeCount(count: int)

  /** The outcome of a binary read. */
  datatype Result<+T> = Success(value: T) | Failure(error: ReadError)
}
