/** Shapes used by several modules. */
module Common {

  datatype Option<+T> = None | Some(value: T)

  datatype Result<+T, +E> = Ok(value: T) | Err(error: E)

  /** How a database transaction ends for its caller; an unconfirmed one took effect but was reported failed. */
  datatype Commit = Committed | RolledBack | CommitUnconfirmed
}
