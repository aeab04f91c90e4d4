/** Option for Java's nullable references and Outcome for a call that can throw. */
module Wrappers {

  /** A Java reference that may be null (None) or an Optional that may be empty. */
  datatype Option<+T> = None | Some(value: T)

  /** The exception classes the controllers tell apart; anything else is Unexpected. */
  datatype Exception =
    | UserNotFoundException
    | IllegalArgumentException
    | Unexpected(message: string)

  /** The result of calling a collaborator that may throw instead of returning. */
  datatype Outcome<+T> = Returned(value: T) | Raised(error: Exception)
}
