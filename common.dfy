/** Result and error types shared by the backend and frontend models.
    The backend throws exceptions; the model returns them as values. */
module Common {

  datatype Option<T> = None | Some(value: T)

  /** One failed class-validator constraint: the property and the constraint's name. */
  datatype Violation = Violation(property: string, constraint: string)

  /** The exceptions the modelled code raises. NestJS answers an HTTP exception
      with its own status and anything else with 500. */
  datatype Error =
    | Unauthorized(message: string)          // UnauthorizedException
    | NotFound(message: string)              // NotFoundException
    | Conflict(message: string)              // ConflictException, from the user service
    | BadRequest(violations: set<Violation>) // the validation pipe rejecting a request body
    | Invalid(paths: set<string>)            // a Mongoose ValidationError naming the failing paths
    | DuplicateKey(path: string)             // a unique index refusing a second equal key
    | Internal(message: string)              // any other Error (a malformed ObjectId, a null user)
  {
    function Status(): (code: int)
      ensures code in {400, 401, 404, 409, 500}
      ensures code == 500 <==> Invalid? || DuplicateKey? || Internal?
    {
      match this
      case Unauthorized(_) => 401
      case NotFound(_) => 404
      case Conflict(_) => 409
      case BadRequest(_) => 400
      case Invalid(_) => 500
      case DuplicateKey(_) => 500
      case Internal(_) => 500
    }
  }

  datatype Result<T> = Ok(value: T) | Fail(error: Error)
}
