/**
 * What a handler sends back: a success status with a body, or one of the
 * failures the controllers distinguish, each with its HTTP status code.
 * The localized message strings are replaced by the reason they announce.
 */
module Http {

  /** Why a request is refused with 400. */
  datatype Invalid =
    | InvalidId         // "L'ID fourni est invalide."
    | MissingFields     // "Champs requis manquants." and the like, with the list of required fields
    | NotNumeric        // price, room count or owner id is not a number
    | InvalidEmail      // "Format d'email invalide."
    | PasswordTooShort  // fewer than 6 characters

  /** Why a request is refused with 409. */
  datatype ConflictReason = EmailInUse | UserHasListings

  datatype Failure =
    | BadRequest(why: Invalid)
    | InvalidCredentials          // 401 "Identifiants invalides."
    | TokenMissing                // 401 "Access token missing"
    | TokenInvalid                // 403 "Invalid token"
    | NotFound
    | Conflict(reason: ConflictReason)
    | ServerError                 // 500: the store refused the statement
  {
    function Status(): int {
      match this
      case BadRequest(_) => 400
      case InvalidCredentials => 401
      case TokenMissing => 401
      case TokenInvalid => 403
      case NotFound => 404
      case Conflict(_) => 409
      case ServerError => 500
    }
  }

  datatype Reply<T> = Ok(code: int, body: T) | Fail(failure: Failure) {
    function Status(): int {
      if Ok? then code else failure.Status()
    }
  }

  /** The outcome of a guard chain: go on with a value, or answer with a failure. */
  datatype Checked<T> = Pass(value: T) | Stop(failure: Failure)
}
