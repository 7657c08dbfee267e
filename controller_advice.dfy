/** `GenericControllerAdvice`: turns the exceptions a controller call raises into an
    HTTP status and a structured error body. */
module ControllerAdvice {
  import opened Wrappers
  import opened Exceptions

  datatype ApiErrorType = VALIDATION_ERROR | NOT_FOUND_ERROR

  /** The error body. `details` is never filled in by the advice. */
  datatype ApiError = ApiError(
    errorType: ApiErrorType,
    code: Option<int>,
    message: Option<string>,
    details: Option<string>)

  datatype ApiErrorResponse = ApiErrorResponse(error: ApiError)

  datatype HttpResponse = HttpResponse(status: int, body: ApiErrorResponse)

  const BAD_REQUEST := 400
  const NOT_FOUND := 404

  /** `hasUnderlyingCause(cause)`: the cause is non-null and has a cause of its own. */
  function HasUnderlyingCause(cause: Option<Throwable>): (r: bool)
    ensures r <==> |CauseChain(cause)| >= 2
  {
    cause.Some? && cause.value.cause.Some?
  }

  /** The message the advice exposes: that of the cause's cause when there is one
      (the second link below `e`, not necessarily the root cause), else `e`'s own. */
  function ExposedMessage(e: GenericException): (m: Option<string>)
    ensures |CauseChain(e.cause)| >= 2 ==> m == CauseChain(e.cause)[1].message
    ensures |CauseChain(e.cause)| < 2 ==> m == e.message
  {
    var cause := e.cause;
    if HasUnderlyingCause(cause) then cause.value.cause.value.message else e.message
  }

  /** `validationErrors`: 400 with a VALIDATION_ERROR body. */
  function ValidationErrors(e: GenericException): (r: HttpResponse)
    ensures r.status == BAD_REQUEST && r.body.error.errorType == VALIDATION_ERROR
    ensures r.body.error.code == e.errorCode && r.body.error.details.None?
    ensures r.body.error.message == ExposedMessage(e)
  {
    HttpResponse(BAD_REQUEST, ApiErrorResponse(ApiError(VALIDATION_ERROR, e.errorCode, ExposedMessage(e), None)))
  }

  /** `handleNotFoundError`: 404 with a NOT_FOUND_ERROR body. */
  function HandleNotFoundError(e: GenericException): (r: HttpResponse)
    ensures r.status == NOT_FOUND && r.body.error.errorType == NOT_FOUND_ERROR
    ensures r.body.error.code == e.errorCode && r.body.error.details.None?
    ensures r.body.error.message == ExposedMessage(e)
  {
    HttpResponse(NOT_FOUND, ApiErrorResponse(ApiError(NOT_FOUND_ERROR, e.errorCode, ExposedMessage(e), None)))
  }

  /** The advice's handler selection by exception type. A `DatabaseException` has no
      handler here (`None`): it falls through to the framework's default. */
  function Handle(e: GenericException): (r: Option<HttpResponse>)
    ensures r.Some? <==> !e.DatabaseException?
    ensures e.InvalidFieldException? ==> r == Some(ValidationErrors(e))
    ensures e.NotFoundException? ==> r == Some(HandleNotFoundError(e))
    ensures r.Some? ==> (r.value.status == BAD_REQUEST <==> e.InvalidFieldException?)
    ensures r.Some? ==> (r.value.status == NOT_FOUND <==> e.NotFoundException?)
    ensures r.Some? ==> r.value.body.error.message == ExposedMessage(e)
  {
    match e
    case InvalidFieldException(_, _, _) => Some(ValidationErrors(e))
    case NotFoundException(_, _, _) => Some(HandleNotFoundError(e))
    case DatabaseException(_, _, _) => None
  }

  /** The exceptions the service raises have no cause, so their body shows the
      exception's own message, a null code and null details. */
  lemma CauselessShowsOwnMessage(e: GenericException)
    requires e.cause.None? && !e.DatabaseException?
    ensures Handle(e).Some?
    ensures Handle(e).value.body.error == ApiError(
      if e.InvalidFieldException? then VALIDATION_ERROR else NOT_FOUND_ERROR, e.errorCode, e.message, None)
  {
  }

  /** With a three-deep cause chain the exposed message is the middle one, not the
      root cause's and not the exception's own. */
  lemma ExposesSecondCauseNotRoot(own: string, middle: string, root: string)
    ensures var e := InvalidFieldException(Some(own), None,
                       Some(Throwable(Some("first"), Some(Throwable(Some(middle), Some(Throwable(Some(root), None)))))));
            ValidationErrors(e).body.error.message == Some(middle)
  {
  }
}
