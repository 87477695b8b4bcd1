/** Shared vocabulary of the rental backend model: identifiers, optional values,
    the service layer's error taxonomy, and the Result every operation returns. */
module Base {

  /** Primary keys are uuid strings generated by the database. */
  type Id = string

  /** An optional value: a nullable column, an absent relation or an omitted DTO field. */
  datatype Option<+T> = None | Some(value: T) {

    /** The value, or `default` when absent (the `??` operator). */
    function GetOr(default: T): T
    {
      match this
      case Some(v) => v
      case None => default
    }
  }

  /** How the HTTP layer classifies a thrown error. `NotFoundException`,
      `BadRequestException`, `ForbiddenException` and `ConflictException` map to the
      first four; a plain `Error`, a `TypeError` or a database failure is `Internal`. */
  datatype ErrorKind = NotFound | BadRequest | Forbidden | Conflict | Internal

  datatype Error = Error(kind: ErrorKind, message: string)

  /** Either the operation's value or the first error it raised. */
  datatype Result<+T> = Success(value: T) | Failure(error: Error)

  /** JavaScript truthiness of an optional string: both a missing value and "" are falsy. */
  predicate Truthy(s: Option<string>)
  {
    s.Some? && s.value != ""
  }

  /** The `TypeError` raised when code reads a field of a relation that loaded as null. */
  const NullRelation := Error(Internal, "Cannot read properties of null")
}
