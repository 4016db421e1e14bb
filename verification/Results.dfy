/** Result types standing for the source's (value, error) returns, and the stable reason codes they carry. */
module Results {

  datatype Option<+T> = None | Some(value: T)

  datatype Result<+T, +E> = Success(value: T) | Failure(error: E)

  /** The AI-xxxx codes that the modelled operations answer with. */
  datatype Code =
    | BudgetExhausted
    | CallLimit
    | DistinctLimit
    | LeaseUnavailable
    | EpochBumped
    | Monotonicity
    | DepthExceeded
    | BrokenChain
    | AncestorRevoked
    | PassportInvalid
    | Misconfiguration
    | TimestampWindow
    | NonceReused
    | NotFound       // an error the source returns without a code
    | Held           // "reservation is held"
    | Expired        // "parent passport is expired"
}
