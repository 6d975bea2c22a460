/** Vocabulary shared by every module: identifiers, instants, options and injected faults. */
module Common {
  datatype Option<+T> = None | Some(value: T)

  datatype Result<+T, +E> = Ok(value: T) | Err(error: E)

  /** A 128-bit UUID read as a number; 0 is uuid.Nil. Fresh ids are never reused. */
  type Id = nat

  /** Microseconds since 1970-01-01T00:00Z, the resolution of a PostgreSQL timestamp. */
  type Instant = int

  /** How one remote call or one database statement can go wrong.
      FailBefore: an error and no effect. FailAfter: the effect happened, yet the caller sees an error. */
  datatype Fault = NoFault | FailBefore | FailAfter
}
