/**
 * The GraphQL middleware's REST client, in its pure parts: the header
 * redaction applied before logging, and the translation of a failed REST
 * call into a GraphQL error with a code derived from the HTTP status.
 */
module RestApiClient {
  import opened Common
  import AuthController

  /** The request headers removed before a request or response is logged. */
  const SessionIdHeader: string := "X-Session-Id"
  const AuthorizationHeader: string := "Authorization"

  /** getErrorCode: the GraphQL code for an HTTP status. */
  function GetErrorCode(statusCode: int): (code: string)
    ensures code != "UNKNOWN_ERROR" <==> statusCode in {400, 401, 403, 404, 409, 422, 500}
    ensures statusCode == 500 ==> code == "INTERNAL_SERVER_ERROR"
  {
    match statusCode
    case 400 => "BAD_REQUEST"
    case 401 => "UNAUTHORIZED"
    case 403 => "FORBIDDEN"
    case 404 => "NOT_FOUND"
    case 409 => "CONFLICT"
    case 422 => "VALIDATION_ERROR"
    case 500 => "INTERNAL_SERVER_ERROR"
    case _ => "UNKNOWN_ERROR"
  }

  /** Distinct statuses the switch names get distinct codes. */
  lemma ErrorCodesAreDistinct(a: int, b: int)
    requires a in {400, 401, 403, 404, 409, 422, 500} && b in {400, 401, 403, 404, 409, 422, 500}
    ensures GetErrorCode(a) == GetErrorCode(b) ==> a == b
  {
  }

  /** A JSON response body with string fields. */
  type JsonObject = map<string, string>

  /** The HTTP response attached to a failed call, when the server answered at all. */
  datatype ErrorResponse = ErrorResponse(status: Option<int>, data: Option<JsonObject>)

  /** The error axios rejects with. */
  datatype HttpError = HttpError(response: Option<ErrorResponse>, message: Option<string>)

  datatype Extensions = Extensions(code: string, statusCode: int, details: JsonObject, operation: string)

  datatype GraphQLError = GraphQLError(message: string, extensions: Extensions)

  /** A JavaScript string used as a condition: null, undefined and "" are false. */
  predicate Truthy(s: Option<string>) {
    s.Some? && s.value != []
  }

  /** `error.response?.data?.message` */
  function ResponseMessage(error: HttpError): Option<string> {
    if error.response.Some? && error.response.value.data.Some? && "message" in error.response.value.data.value
    then Some(error.response.value.data.value["message"])
    else None
  }

  /**
   * handleError: the status defaults to 500 when there is none (or it is 0);
   * the message is the server's, else the error's own, else "Unknown error",
   * an empty string counting as none; the details are the response body or
   * an empty object.
   */
  function HandleError(error: HttpError, operation: string): (r: GraphQLError)
    ensures r.extensions.operation == operation
    ensures r.extensions.code == GetErrorCode(r.extensions.statusCode)
    ensures r.extensions.statusCode != 0
    ensures error.response.Some? && error.response.value.status.Some? && error.response.value.status.value != 0 ==>
              r.extensions.statusCode == error.response.value.status.value
    ensures !(error.response.Some? && error.response.value.status.Some? && error.response.value.status.value != 0) ==>
              r.extensions.statusCode == 500
    ensures error.response.None? ==> r.extensions.details == map[]
    ensures error.response.Some? ==> r.extensions.details == error.response.value.data.GetOr(map[])
    ensures Truthy(ResponseMessage(error)) ==> r.message == ResponseMessage(error).value
    ensures !Truthy(ResponseMessage(error)) && Truthy(error.message) ==> r.message == error.message.value
    ensures !Truthy(ResponseMessage(error)) && !Truthy(error.message) ==> r.message == "Unknown error"
    ensures r.message != []
  {
    var statusCode :=
      if error.response.Some? && error.response.value.status.Some? && error.response.value.status.value != 0
      then error.response.value.status.value else 500;
    var message :=
      if Truthy(ResponseMessage(error)) then ResponseMessage(error).value
      else if Truthy(error.message) then error.message.value
      else "Unknown error";
    var details := if error.response.Some? && error.response.value.data.Some? then error.response.value.data.value else map[];
    GraphQLError(message, Extensions(GetErrorCode(statusCode), statusCode, details, operation))
  }

  /**
   * A call that got no response at all (a refused connection, a timeout) is
   * reported as status 500 with code INTERNAL_SERVER_ERROR, never as
   * UNKNOWN_ERROR.
   */
  lemma NoResponseIsInternalError(message: Option<string>, operation: string)
    ensures HandleError(HttpError(None, message), operation).extensions.code == "INTERNAL_SERVER_ERROR"
  {
  }

  /** An answer with a status the switch names keeps that status's code. */
  lemma ServerStatusIsKept(status: int, data: Option<JsonObject>, message: Option<string>, operation: string)
    requires status in {400, 401, 403, 404, 409, 422}
    ensures HandleError(HttpError(Some(ErrorResponse(Some(status), data)), message), operation).extensions.code != "UNKNOWN_ERROR"
    ensures HandleError(HttpError(Some(ErrorResponse(Some(status), data)), message), operation).extensions.code
            != "INTERNAL_SERVER_ERROR"
  {
  }

  /** sanitizeHeaders: a copy without the session id and the authorization; every other header is kept as it was. */
  function SanitizeHeaders(headers: map<string, string>): (r: map<string, string>)
    ensures r.Keys == headers.Keys - {SessionIdHeader, AuthorizationHeader}
    ensures forall k :: k in r ==> r[k] == headers[k]
  {
    map k | k in headers && k != SessionIdHeader && k != AuthorizationHeader :: headers[k]
  }

  /** Redacting twice is redacting once. */
  lemma SanitizeIdempotent(headers: map<string, string>)
    ensures SanitizeHeaders(SanitizeHeaders(headers)) == SanitizeHeaders(headers)
  {
  }

  /**
   * The login and register responses carry the plaintext session token
   * under X-Session-Token, a name the redaction does not list, so it reaches
   * the debug log.
   */
  lemma IssuedTokenIsNotRedacted(headers: map<string, string>)
    requires AuthController.SessionTokenHeader in headers
    ensures AuthController.SessionTokenHeader in SanitizeHeaders(headers)
    ensures SanitizeHeaders(headers)[AuthController.SessionTokenHeader] == headers[AuthController.SessionTokenHeader]
  {
  }

  /** The headers logout sends: the session under X-Session-Id. */
  function LogoutHeaders(sessionId: string): (h: map<string, string>)
    ensures h.Keys == {SessionIdHeader}
  {
    map[SessionIdHeader := sessionId]
  }

  /**
   * The controller reads the logout token from X-Session-Token, which the
   * client's logout request never carries: the controller binds no token,
   * which `AuthController.LogoutUser` answers with 400.
   */
  lemma ClientLogoutCarriesNoToken(sessionId: string)
    ensures AuthController.SessionTokenHeader !in LogoutHeaders(sessionId)
    ensures AuthController.SessionTokenOf(LogoutHeaders(sessionId)).None?
  {
  }
}
