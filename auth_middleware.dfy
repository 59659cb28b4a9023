/**
 * src/middleware/auth.ts: the `Authorization: Bearer <token>` header form of section 2.1 of RFC 6750, tested
 * case-sensitively; the token is handed to `jsonwebtoken`'s `verify`, which is the parameter `verify` here
 * (its signature and expiry checks are not modelled), and what it throws is classified in the catch block.
 */
module AuthMiddleware {
  import opened Wrappers
  import opened ErrorHandler

  /** The claims a token carries, and what the middleware stores on the request. */
  datatype AuthPayload = AuthPayload(userId: string, handle: string)

  /** What `jwt.verify(token, secret)` does: return the decoded claims, or throw. */
  datatype VerifyOutcome = Decoded(payload: AuthPayload) | Threw(error: ErrorValue)

  const BEARER_PREFIX: string := "Bearer "

  const NoTokenProvided: ErrorValue := ServiceError(401, "No token provided", "UNAUTHORIZED")
  const InvalidToken: ErrorValue := ServiceError(401, "Invalid token", "UNAUTHORIZED")
  const TokenExpired: ErrorValue := ServiceError(401, "Token expired", "TOKEN_EXPIRED")

  /** `header.startsWith('Bearer ')`. */
  predicate HasBearerPrefix(header: string) {
    |header| >= |BEARER_PREFIX| && header[..|BEARER_PREFIX|] == BEARER_PREFIX
  }

  /** `header.substring(7)`: the header with the prefix taken off. */
  function TokenOf(header: string): (token: string)
    requires HasBearerPrefix(header)
    ensures BEARER_PREFIX + token == header
    ensures |token| == |header| - 7
  {
    header[7..]
  }

  /** The token of a request: present only when the header is present and starts with the exact prefix. */
  function BearerToken(authorization: Option<string>): (token: Option<string>)
    ensures token.Some? <==> authorization.Some? && HasBearerPrefix(authorization.value)
    ensures token.Some? ==> BEARER_PREFIX + token.value == authorization.value
  {
    if authorization.Some? && HasBearerPrefix(authorization.value) then Some(TokenOf(authorization.value)) else None
  }

  /** Prefixing any token and extracting it again gives the token back. */
  lemma TokenRoundTrip(token: string)
    ensures BearerToken(Some(BEARER_PREFIX + token)) == Some(token)
  {
    assert (BEARER_PREFIX + token)[..7] == BEARER_PREFIX;
    assert (BEARER_PREFIX + token)[7..] == token;
  }

  /** The test is case-sensitive: a lower-case scheme carries no token. */
  lemma LowerCaseSchemeRejected(token: string)
    ensures BearerToken(Some("bearer " + token)) == None
  {
    assert ("bearer " + token)[0] == 'b';
  }

  /** `error instanceof jwt.JsonWebTokenError`. */
  predicate IsJsonWebTokenError(e: ErrorValue) {
    e.JwtError? && (e.failure.JsonWebTokenError? || e.failure.extendsJsonWebTokenError)
  }

  /** `error instanceof jwt.TokenExpiredError`. */
  predicate IsTokenExpiredError(e: ErrorValue) {
    e.JwtError? && e.failure.TokenExpiredError?
  }

  /** The catch block of `authenticate`: what it passes to `next` for a thrown value `e`. */
  function CatchAuthError(e: ErrorValue): (forwarded: ErrorValue)
    ensures IsJsonWebTokenError(e) ==> forwarded == InvalidToken
    ensures !IsJsonWebTokenError(e) && IsTokenExpiredError(e) ==> forwarded == TokenExpired
    ensures !e.JwtError? ==> forwarded == e
  {
    if IsJsonWebTokenError(e) then InvalidToken
    else if IsTokenExpiredError(e) then TokenExpired
    else e
  }

  /**
   * With the jsonwebtoken package, where `TokenExpiredError` extends `JsonWebTokenError`, the first test of
   * the catch block already matches an expired token: it is reported as 'Invalid token' and the
   * 'Token expired' / TOKEN_EXPIRED branch is never taken.
   */
  lemma ExpiredTokenReportedAsInvalid(message: string)
    ensures CatchAuthError(JwtError(TokenExpiredError(message, true))) == InvalidToken
  {
  }

  /** Under that class hierarchy no error thrown by `verify` is turned into TOKEN_EXPIRED. */
  lemma TokenExpiredUnreachable(e: ErrorValue)
    requires e.JwtError?
    requires e.failure.TokenExpiredError? ==> e.failure.extendsJsonWebTokenError
    ensures CatchAuthError(e) != TokenExpired
  {
  }

  /** Only if the expiry error were not a `JsonWebTokenError` would the second branch be reached. */
  lemma ExpiredTokenOtherwise(message: string)
    ensures CatchAuthError(JwtError(TokenExpiredError(message, false))) == TokenExpired
  {
  }

  /** An Express request as the middleware sees it: the `authorization` header, and the `user` it may set. */
  class Request {
    const authorization: Option<string>
    var user: Option<AuthPayload>

    constructor (authorization: Option<string>)
      ensures this.authorization == authorization && user == None
    {
      this.authorization := authorization;
      user := None;
    }
  }

  /**
   * `authenticate`: the value it passes to `next` (`None` for a call without an error). A missing or
   * non-Bearer header throws 'No token provided', which the catch block forwards unchanged; otherwise the
   * token is verified, and on success `req.user` is the decoded payload.
   */
  method Authenticate(req: Request, verify: string -> VerifyOutcome) returns (nextError: Option<ErrorValue>)
    modifies req
    ensures BearerToken(req.authorization).None? ==>
      nextError == Some(NoTokenProvided) && req.user == old(req.user)
    ensures BearerToken(req.authorization).Some? ==>
      match verify(BearerToken(req.authorization).value)
      case Decoded(payload) => nextError == None && req.user == Some(payload)
      case Threw(e) => nextError == Some(CatchAuthError(e)) && req.user == old(req.user)
  {
    var thrown: Option<ErrorValue> := None;
    var token := BearerToken(req.authorization);
    if token.None? {
      thrown := Some(NoTokenProvided);
    } else {
      match verify(token.value)
      case Decoded(payload) =>
        req.user := Some(payload);
      case Threw(e) =>
        thrown := Some(e);
    }
    if thrown.Some? {
      nextError := Some(CatchAuthError(thrown.value));
    } else {
      nextError := None;
    }
  }

  /**
   * `optionalAuth`: never passes an error on; sets `req.user` only for a Bearer header whose token verifies,
   * and otherwise leaves the request as it was.
   */
  method OptionalAuth(req: Request, verify: string -> VerifyOutcome) returns (nextError: Option<ErrorValue>)
    modifies req
    ensures nextError == None
    ensures var token := BearerToken(req.authorization);
      req.user == if token.Some? && verify(token.value).Decoded? then Some(verify(token.value).payload) else old(req.user)
  {
    var token := BearerToken(req.authorization);
    if token.Some? {
      var outcome := verify(token.value);
      if outcome.Decoded? {
        req.user := Some(outcome.payload);
      }
    }
    nextError := None;
  }
}
