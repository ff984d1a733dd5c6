/** Go's error values and the multi-valued returns the services and repositories are built from. */
module Outcomes {

  /** A Go `error`. `sql.ErrNoRows` is a sentinel compared by identity (`err == sql.ErrNoRows`);
      every other error is known only by the text `err.Error()` returns. */
  datatype Error = ErrNoRows | Message(text: string)

  /** What `err.Error()` returns. */
  function Text(e: Error): string {
    match e
    case ErrNoRows => "sql: no rows in result set"
    case Message(t) => t
  }

  /** A Go `*T` that may be nil. */
  datatype Option<+T> = None | Some(value: T)

  /** A Go `(T, error)` pair, and a bare `error` as `Result<()>`. */
  datatype Result<+T> = Ok(value: T) | Err(err: Error)

  /** A Go `(*T, error)` pair. Every caller in this code base tests `err != nil` first,
      so a non-nil record returned beside a non-nil error is read as `Failed`. */
  datatype Fetch<+T> = Found(value: T) | Nil | Failed(err: Error)
  {
    /** The guard `err != nil || x == nil` that the lookups in the services and handlers use. */
    predicate Absent() { !Found? }
  }
}
