/** Shared vocabulary of the hotel back end's services: optional values,
    results of operations that may fail, and the errors the services raise. */
module Common {

  /** A value that may be absent: a nullable column or a `java.util.Optional`. */
  datatype Option<+T> = None | Some(value: T)

  /** The outcome of a service call: a value, or the exception the call throws. */
  datatype Result<+T, +E> = Success(value: T) | Failure(error: E)

  /** The kind of record a lookup failed to find. */
  datatype Kind = ClientKind | BedroomKind | AccommodationKind | ReservationKind

  /** Why a request was refused as an invalid argument. */
  datatype InvalidReason =
    | IncompleteClient   // a client's name, address or city is null or blank
    | NoQualifyingStay   // no stay has a described accommodation with a non-zero value

  /** The exceptions the services throw, one constructor per kind. */
  datatype Error =
    | NotFound(kind: Kind)                   // ResourceNotFound, or ResponseStatusException NOT_FOUND
    | Conflict                               // ResponseStatusException CONFLICT: an overlapping stay
    | InvalidArgument(reason: InvalidReason) // IllegalArgumentException
    | Database                               // DatabaseException("Integridade violada")
    | IntegrityViolation                     // DataIntegrityViolationException left uncaught
}
