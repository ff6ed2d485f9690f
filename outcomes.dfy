/** Optional values and the tagged result every tool returns. */
module Outcomes {

  /** A value that may be absent (a nullable column, an optional argument). */
  datatype Option<+T> = None | Some(value: T) {
    function GetOr(default: T): T {
      match this
      case Some(v) => v
      case None => default
    }
  }

  /** Why the store refused an insert. */
  datatype StoreFault =
    | ValueRefused   // a value the store cannot hold: a string with U+0000 or too long for its VARCHAR, an integer outside INTEGER
    | DuplicateKey   // a primary key already present in the table

  /** The failure classes a tool can report instead of raising. */
  datatype Error =
    | InvalidDateFormat          // a date argument is not YYYY-MM-DD
    | InvalidIdentifier          // an id argument is not a UUID
    | NotFound                   // a well-formed id that matches no row
    | StoreFailure(fault: StoreFault)

  datatype Result<+T> = Ok(value: T) | Err(error: Error)
}
