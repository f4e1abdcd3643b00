/**
 * The Express error middleware: `AppError` and the mapping from a thrown value
 * to the HTTP status, message and (in development only) stack of the response.
 */
module ErrorHandler {
  import opened Collections

  /** The parts of a thrown value that the middleware reads. */
  datatype ThrownError = ThrownError(
    statusCode: Option<int>,
    message: Option<string>,
    code: Option<string>,
    stack: Option<string>)

  /** The JSON body `{ status: 'error', message, stack? }` with its HTTP status. */
  datatype ErrorResponse = ErrorResponse(httpStatus: int, message: string, stack: Option<string>)

  const DuplicateMessage: string := "Duplicate entry. This record already exists."
  const RecordNotFoundMessage: string := "Record not found."
  const DefaultMessage: string := "Internal Server Error"

  /** Prisma's unique-constraint violation and record-not-found codes. */
  const UniqueViolation: string := "P2002"
  const RecordNotFound: string := "P2025"

  /** `err.statusCode || 500`: a missing or zero status code is falsy. */
  function StatusOrDefault(statusCode: Option<int>): (s: int)
    ensures statusCode.Some? && statusCode.value != 0 ==> s == statusCode.value
    ensures statusCode.None? || statusCode.value == 0 ==> s == 500
  {
    if statusCode.Some? && statusCode.value != 0 then statusCode.value else 500
  }

  /** `new AppError(message, statusCode)`: an error that carries its HTTP status. */
  function AppError(message: string, statusCode: int, stack: Option<string>): (e: ThrownError)
    ensures e.statusCode == Some(statusCode) && e.message == Some(message) && e.stack == stack
    ensures e.code.None?
  {
    ThrownError(Some(statusCode), Some(message), None, stack)
  }

  /**
   * `errorHandler(err, req, res, next)`: the status starts as the error's own
   * (500 when it has none) and the message as the error's own (a default when
   * empty); a recognised Prisma code then overrides both. The stack is sent
   * only when NODE_ENV is 'development'.
   */
  function HandleError(err: ThrownError, nodeEnv: Option<string>): (r: ErrorResponse)
    ensures err.code == Some(UniqueViolation) ==>
      r.httpStatus == 400 && r.message == DuplicateMessage
    ensures err.code == Some(RecordNotFound) ==>
      r.httpStatus == 404 && r.message == RecordNotFoundMessage
    ensures err.code != Some(UniqueViolation) && err.code != Some(RecordNotFound) ==>
      r.httpStatus == StatusOrDefault(err.statusCode) &&
      r.message == (if Truthy(err.message) then err.message.value else DefaultMessage)
    ensures r.stack.Some? <==> nodeEnv == Some("development") && err.stack.Some?
    ensures r.stack.Some? ==> r.stack == err.stack
  {
    var statusCode := StatusOrDefault(err.statusCode);
    var message := OrElse(err.message, Some(DefaultMessage)).value;
    var (statusCode, message) :=
      if err.code == Some(UniqueViolation) then (400, DuplicateMessage) else (statusCode, message);
    var (statusCode, message) :=
      if err.code == Some(RecordNotFound) then (404, RecordNotFoundMessage) else (statusCode, message);
    ErrorResponse(statusCode, message, if nodeEnv == Some("development") then err.stack else None)
  }

  /** A recognised Prisma code decides the status whatever status code the error carries. */
  lemma PrismaCodeOverridesStatus(err: ThrownError, other: Option<int>, nodeEnv: Option<string>)
    requires err.code == Some(UniqueViolation) || err.code == Some(RecordNotFound)
    ensures HandleError(err, nodeEnv).httpStatus == HandleError(err.(statusCode := other), nodeEnv).httpStatus
    ensures HandleError(err, nodeEnv).httpStatus in {400, 404}
  {
  }

  /** An `AppError` is answered with the status and message it was built with. */
  lemma AppErrorKeepsStatus(message: string, statusCode: int, stack: Option<string>, nodeEnv: Option<string>)
    requires statusCode != 0 && message != ""
    ensures HandleError(AppError(message, statusCode, stack), nodeEnv).httpStatus == statusCode
    ensures HandleError(AppError(message, statusCode, stack), nodeEnv).message == message
  {
  }

  /** Outside development no response ever reveals a stack. */
  lemma NoStackOutsideDevelopment(err: ThrownError, nodeEnv: Option<string>)
    requires nodeEnv != Some("development")
    ensures HandleError(err, nodeEnv).stack.None?
  {
  }
}
