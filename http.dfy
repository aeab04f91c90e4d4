/** The response side of the web layer: statuses and response entities. */
module Http {
  import opened Wrappers

  /** The HTTP statuses the modelled endpoints answer with. */
  datatype HttpStatus =
    | OK
    | NO_CONTENT
    | BAD_REQUEST
    | UNAUTHORIZED
    | FORBIDDEN
    | NOT_FOUND
    | INTERNAL_SERVER_ERROR

  /** A response entity: a status and an optional body (None is `build()` without a body). */
  datatype Response<T> = Response(status: HttpStatus, body: Option<T>)

  /** The body of a `ResponseEntity<?>`: either a message string or a value. */
  datatype Payload<T> = Message(text: string) | Content(value: T)

  /** The login answer: the issued token and its validity window. None stands for a field
      left at its default by the code (for `expiresIn`, presumably 0 if the field is a
      primitive `long`), since the `LoginResponse` class is not part of this model. */
  datatype LoginResponse = LoginResponse(token: Option<string>, expiresIn: Option<int>)
}
