/** Result shapes shared by the whole model.

    The data-access manager answers every call with a pair `(ok, payload)`.
    Here that pair becomes a tagged `Result`, and the store failures it can
    carry become a small `DbError` datatype named after the constraint that
    SQLite reports.
 */
module Results {

  /** A value that may be absent: a nullable column, or `.first()` finding nothing. */
  datatype Option<+T> = None | Some(value: T)

  /** Why a store call failed. */
  datatype DbError =
    | NotNull(column: string)      // a NOT NULL column was given no value
    | Check(constraint: string)    // a named CHECK constraint evaluated to false
    | Unique(column: string)       // a UNIQUE column already holds the value
    | NoSuchRow                    // `session.delete(None)`: the id matched no row

  /** `(True, value)` or `(False, error)`. */
  datatype Result<+T> = Ok(value: T) | Err(error: DbError)
}
