/** Outcomes of partial operations: absent values and rejected requests. */
module Results {

  datatype Option<+T> = None | Some(value: T) {
    function GetOr(fallback: T): T {
      if Some? then value else fallback
    }

    // The null-coalescing operator `a ?? b` on two nullable values.
    function OrElse(other: Option<T>): Option<T> {
      if Some? then this else other
    }
  }

  datatype Result<+T, +E> = Ok(value: T) | Err(error: E)

  /** The exceptions a recorder operation reports to its caller. */
  datatype RecorderError =
    | ValidationError     // ValidationException: the request itself is malformed
    | ConflictError       // UsageImportConflictException: mixed metering or a stale revision
    | ArgumentError       // ArgumentException: an unknown parent event or a duplicate run
    | StorageError        // TraceStorageException: a stored row is unreadable
}
