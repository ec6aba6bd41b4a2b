/** Values shared by every layer of the model: optional values, the
    service-level outcome of an operation, the exceptions the services
    throw, and the opaque calendar values the application reads from its
    clock. */
module Common {

  /** A Java reference that may be null. */
  datatype Option<+T> = None | Some(value: T) {
    function GetOr(default: T): T {
      match this
      case Some(v) => v
      case None => default
    }
  }

  /** The exceptions the services raise; each carries the message the source
      puts into it. */
  datatype Error =
    | NotFound(message: string)
    | Forbidden(message: string)
    | Conflict(message: string)
      /** AuthenticationManager.authenticate rejected the credentials. */
    | BadCredentials
      /** The database refused an insert that breaks a unique constraint. */
    | DataIntegrityViolation

  /** A service call either returns a value or throws one of the errors. */
  datatype Result<+T> = Ok(value: T) | Err(error: Error)

  /** A call that returns nothing, or throws. */
  datatype Outcome = Pass | Fail(error: Error)

  /** A java.time.LocalDate, kept opaque: the model only stores and compares it. */
  datatype Date = Date(epochDay: int)

  /** A java.time.LocalDateTime, kept opaque likewise. */
  datatype DateTime = DateTime(epochSecond: int)

  /** Surrogate keys generated by the database (GenerationType.IDENTITY). */
  type RunnerId = nat
  type ActivityId = nat
  type BadgeId = nat
}
