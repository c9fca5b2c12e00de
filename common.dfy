/** Shared wrappers and the error taxonomy of the event-booking API. */
module Common {

  datatype Option<+T> = None | Some(value: T)

  /** Every exception the core raises, by the name of its class. */
  datatype Error =
    | InvalidCredentials      // 401 "Invalid credentials."
    | InvalidToken            // 401 "Token invalid, expired or revoked."
    | SubjectNotInteger       // int(sub) raised ValueError, which nothing catches (500)
    | UserNotOrganizer        // 403
    | UserNotParticipant      // 403
    | EventNotBelongToUser    // 403
    | AlreadyEnrolled         // 409
    | NotEnrolled             // 409
    | UsernameAlreadyExists   // 409 "Given username already exists"
    | NotFound(entity: string) // 404
    | DatabaseError           // the database refused the statement

  datatype Result<+T> = Ok(value: T) | Err(error: Error) {
    predicate IsFailure() {
      Err?
    }

    function PropagateFailure<U>(): Result<U>
      requires Err?
    {
      Err(error)
    }

    function Extract(): T
      requires Ok?
    {
      value
    }
  }

  /** Outcome of a guard: it passes the call through, or raises. */
  datatype Outcome = Pass | Fail(error: Error)

  /** Runs `next` only when the guard passed, as each decorator's wrapper does. */
  function Then<T>(guard: Outcome, next: Result<T>): (r: Result<T>)
    ensures guard.Pass? ==> r == next
    ensures guard.Fail? ==> r.Err? && r.error == guard.error
  {
    match guard
    case Pass => next
    case Fail(e) => Err(e)
  }

  /** The kinds of request-validation errors reported with status 422. */
  datatype ErrorKind = Missing | StringTooShort | StringTooLong | ValueError | GreaterThan

  datatype FieldError = FieldError(field: string, kind: ErrorKind)

  /** A parsed request body, or every field error found, in field order. */
  datatype Validated<+T> = Accepted(value: T) | Rejected(errors: seq<FieldError>)
}
