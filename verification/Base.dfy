/** Wrappers shared by every module: optional values and operations that can fail. */
module Base {
  datatype Option<+T> = None | Some(value: T)

  datatype Result<+T, +E> = Ok(value: T) | Err(error: E)

  /** What became of a transaction: it committed, it committed but the caller was told it
      failed, or it did not commit. */
  datatype Fate = Committed | Uncertain | Aborted

  const SECOND := 1_000_000
  const MINUTE := 60_000_000
  const DAY := 86_400_000_000
}
