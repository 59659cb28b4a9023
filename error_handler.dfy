/**
 * src/middleware/error-handler.ts: the `HttpError` class, the error-to-response mapping every route
 * falls into, and the catch-all 404 handler. Logging is output and is not modelled.
 */
module ErrorHandler {
  import opened Wrappers

  /** Whatever an error carries in `details`: Zod's issue list, or any other payload kept as text. */
  datatype Details = Issues(issues: seq<string>) | Payload(text: string)

  /** The fields of an `HttpError` once constructed. */
  datatype HttpError = HttpError(statusCode: int, message: string, code: string, details: Option<Details>)

  /**
   * The errors `jsonwebtoken`'s `verify` throws. `NotBeforeError` behaves like `JsonWebTokenError` here and is
   * folded into it. `extendsJsonWebTokenError` records whether a `TokenExpiredError` is also an instance of
   * `JsonWebTokenError`; in the jsonwebtoken package it is, since the class extends it.
   */
  datatype JwtFailure =
    | JsonWebTokenError(message: string)
    | TokenExpiredError(message: string, extendsJsonWebTokenError: bool)

  /** Every value the middleware and services throw or pass to `next`. */
  datatype ErrorValue =
    | ZodError(issues: seq<string>)
    | HttpErrorValue(error: HttpError)
    | JwtError(failure: JwtFailure)
    | PlainError(name: string, message: string, code: Option<string>, details: Option<Details>)

  /** The JSON body of an error response; `None` details are left out of the JSON. */
  datatype ErrorBody = ErrorBody(code: string, message: string, details: Option<Details>)

  datatype Response = Response(status: int, body: ErrorBody)

  const PRISMA_KNOWN_REQUEST_ERROR: string := "PrismaClientKnownRequestError"

  /**
   * `new HttpError(statusCode, message, code?, details?)`. The code falls back to 'HTTP_ERROR' when it is
   * omitted or is the empty string, because the constructor writes `code || 'HTTP_ERROR'`.
   */
  function NewHttpError(statusCode: int, message: string, code: Option<string>, details: Option<Details>): (e: HttpError)
    ensures e.statusCode == statusCode && e.message == message && e.details == details
    ensures code.Some? && code.value != "" ==> e.code == code.value
    ensures code.None? || code == Some("") ==> e.code == "HTTP_ERROR"
  {
    HttpError(statusCode, message, if code.Some? && code.value != "" then code.value else "HTTP_ERROR", details)
  }

  /** The error the services throw: `new HttpError(statusCode, message, code)`. */
  function ServiceError(statusCode: int, message: string, code: string): ErrorValue {
    HttpErrorValue(NewHttpError(statusCode, message, Some(code), None))
  }

  /** A `PrismaClientKnownRequestError` with the given Prisma error code. */
  function PrismaError(code: string, message: string): ErrorValue {
    PlainError(PRISMA_KNOWN_REQUEST_ERROR, message, Some(code), None)
  }

  predicate IsProduction(nodeEnv: Option<string>) {
    nodeEnv == Some("production")
  }

  /** `err.message` of the errors that can reach the default branch. */
  function MessageOf(err: ErrorValue): string {
    match err
    case ZodError(_) => "Validation failed"
    case HttpErrorValue(e) => e.message
    case JwtError(f) => f.message
    case PlainError(_, message, _, _) => message
  }

  /** Whether `err` is a Prisma known-request error carrying Prisma code `code`. */
  predicate IsPrismaCode(err: ErrorValue, code: string) {
    err.PlainError? && err.name == PRISMA_KNOWN_REQUEST_ERROR && err.code == Some(code)
  }

  /**
   * `errorHandler`: the `instanceof ZodError` test, then `instanceof HttpError`, then the Prisma error name with
   * codes P2002 and P2025, then the 500 default whose message is hidden in production.
   */
  function HandleError(err: ErrorValue, nodeEnv: Option<string>): (r: Response)
    ensures err.ZodError? ==> r == Response(422, ErrorBody("VALIDATION_ERROR", "Validation failed", Some(Issues(err.issues))))
    ensures err.HttpErrorValue? ==>
      r == Response(err.error.statusCode, ErrorBody(err.error.code, err.error.message, err.error.details))
    ensures IsPrismaCode(err, "P2002") ==> r == Response(409, ErrorBody("CONFLICT", "Resource already exists", err.details))
    ensures IsPrismaCode(err, "P2025") ==> r == Response(404, ErrorBody("NOT_FOUND", "Resource not found", None))
    ensures !err.ZodError? && !err.HttpErrorValue? && !IsPrismaCode(err, "P2002") && !IsPrismaCode(err, "P2025") ==>
      r.status == 500 && r.body.code == "INTERNAL_SERVER_ERROR" && r.body.details.None? &&
      r.body.message == (if IsProduction(nodeEnv) then "Internal server error" else MessageOf(err))
  {
    match err
    case ZodError(issues) =>
      Response(422, ErrorBody("VALIDATION_ERROR", "Validation failed", Some(Issues(issues))))
    case HttpErrorValue(e) =>
      Response(e.statusCode, ErrorBody(e.code, e.message, e.details))
    case JwtError(f) =>
      InternalServerError(err, nodeEnv)
    case PlainError(name, message, code, details) =>
      if name == PRISMA_KNOWN_REQUEST_ERROR && code == Some("P2002") then
        Response(409, ErrorBody("CONFLICT", "Resource already exists", details))
      else if name == PRISMA_KNOWN_REQUEST_ERROR && code == Some("P2025") then
        Response(404, ErrorBody("NOT_FOUND", "Resource not found", None))
      else
        InternalServerError(err, nodeEnv)
  }

  function InternalServerError(err: ErrorValue, nodeEnv: Option<string>): Response {
    Response(500, ErrorBody("INTERNAL_SERVER_ERROR",
      if IsProduction(nodeEnv) then "Internal server error" else MessageOf(err), None))
  }

  /** An `HttpError` built by its constructor comes back out of the handler with the status, code and message it was built with. */
  lemma HttpErrorRoundTrip(statusCode: int, message: string, code: Option<string>, details: Option<Details>, nodeEnv: Option<string>)
    ensures var r := HandleError(HttpErrorValue(NewHttpError(statusCode, message, code, details)), nodeEnv);
      r.status == statusCode && r.body.message == message && r.body.details == details &&
      r.body.code == (if code.Some? && code.value != "" then code.value else "HTTP_ERROR")
  {
  }

  /** Every error gets exactly one of the handler's statuses; only an `HttpError` can choose its own. */
  lemma StatusIsOneOfTheTable(err: ErrorValue, nodeEnv: Option<string>)
    ensures var r := HandleError(err, nodeEnv);
      err.HttpErrorValue? || r.status in {422, 409, 404, 500}
  {
  }

  /** In production the response never echoes the message of an error the handler does not recognise. */
  lemma ProductionHidesUnknownErrors(err: ErrorValue, nodeEnv: Option<string>)
    requires IsProduction(nodeEnv)
    requires !err.HttpErrorValue?
    ensures HandleError(err, nodeEnv).body.message in
      {"Validation failed", "Resource already exists", "Resource not found", "Internal server error"}
  {
  }

  /** A Prisma known-request error with any code other than P2002 and P2025 is an internal server error. */
  lemma OtherPrismaCodesAreInternal(code: string, message: string, nodeEnv: Option<string>)
    requires code != "P2002" && code != "P2025"
    ensures HandleError(PrismaError(code, message), nodeEnv).status == 500
  {
  }

  /** `notFoundHandler`: a 404 whose message names the request's HTTP method and path. */
  function NotFound(verb: string, path: string): (r: Response)
    ensures r.status == 404 && r.body.code == "NOT_FOUND" && r.body.details.None?
    ensures |r.body.message| == |verb| + |path| + 17
    ensures r.body.message[..6] == "Route " && r.body.message[6..6 + |verb|] == verb
    ensures r.body.message[6 + |verb|] == ' ' && r.body.message[7 + |verb|..7 + |verb| + |path|] == path
    ensures r.body.message[7 + |verb| + |path|..] == " not found"
  {
    Response(404, ErrorBody("NOT_FOUND", "Route " + verb + " " + path + " not found", None))
  }
}
