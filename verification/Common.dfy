/** Types shared by every component: identifiers, options, and the domain errors of core/exceptions.py. */
module Common {

  /** A primary key. Keys are UUIDv7 values, which are ordered; only the order matters here. */
  type Id = nat

  datatype Option<+T> = None | Some(value: T)

  /** The domain errors raised by the services. */
  datatype DomainError = NotFoundError | ConflictError | InvalidStateTransition | ApprovalRequired

  datatype Result<+T> = Ok(value: T) | Err(error: DomainError)

  /** The width of the key column of models. */
  const MAX_KEY_LENGTH: nat := 128

  /** A subset is no larger. */
  lemma {:induction false} SubsetCount<T>(a: set<T>, b: set<T>)
    requires a <= b
    ensures |a| <= |b|
  {
    if a != {} {
      var x :| x in a;
      SubsetCount(a - {x}, b - {x});
    }
  }
}
