/**
 * SessionInterceptor: the gate in front of every protected endpoint. A
 * public path passes untouched; otherwise both headers must carry text and
 * name a live session of that user, or the exchange is answered 401 with a
 * JSON error and the request stops.
 */
module SessionInterceptor {
  import opened Common
  import opened SessionStore
  import opened SessionService

  /** SessionConstants */
  const SessionIdHeader: string := "X-Session-Id"
  const UserIdHeader: string := "X-User-Id"
  const UserIdAttribute: string := "currentUserId"

  /** HttpServletResponse.SC_UNAUTHORIZED */
  const Unauthorized: int := 401
  const ApplicationJson: string := "application/json"

  /** The paths served without a session. */
  const PublicEndpointPrefixes: seq<string> :=
    ["/api/auth/", "/api/health", "/api/ping", "/api/ready", "/actuator/", "/v3/api-docs", "/api/swagger-ui"]

  /** isPublicEndpoint: the path starts with one of the public prefixes. */
  predicate IsPublicEndpoint(uri: string) {
    exists p :: p in PublicEndpointPrefixes && StartsWith(uri, p)
  }

  /** The body handleAuthenticationError writes. */
  function ErrorBody(message: string): string {
    "{\"error\": \"" + message + "\"}"
  }

  /** Every path under a public prefix is open. */
  lemma PublicPrefixesAreOpen(p: string, rest: string)
    requires p in PublicEndpointPrefixes
    ensures IsPublicEndpoint(p + rest)
  {
    assert (p + rest)[..|p|] == p;
  }

  /** The message and activity endpoints are behind the gate, whatever follows the prefix. */
  lemma ApiDataIsProtected(rest: string)
    ensures !IsPublicEndpoint("/api/messages" + rest)
    ensures !IsPublicEndpoint("/api/activities" + rest)
  {
    var m := "/api/messages" + rest;
    var a := "/api/activities" + rest;
    assert m[1] == 'a' && m[2] == 'p' && m[5] == 'm';
    assert a[1] == 'a' && a[2] == 'p' && a[5] == 'a' && a[6] == 'c';
    forall p | p in PublicEndpointPrefixes
      ensures !StartsWith(m, p) && !StartsWith(a, p)
    {
      if |p| <= |m| { assert m[..|p|][5] == m[5] || |p| <= 5; }
    }
  }

  /** The servlet request and response the interceptor sees: what it may write to them. */
  class HttpExchange {
    var status: Option<int>
    var contentType: Option<string>
    var body: string
    var responseHeaders: seq<(string, string)>
    var attributes: map<string, string>

    constructor ()
      ensures status.None? && contentType.None? && body == [] && responseHeaders == [] && attributes == map[]
    {
      status := None;
      contentType := None;
      body := [];
      responseHeaders := [];
      attributes := map[];
    }

    /** handleAuthenticationError: 401, a JSON content type, the error body. */
    method Reject(message: string)
      modifies this
      ensures status == Some(Unauthorized) && contentType == Some(ApplicationJson) && body == old(body) + ErrorBody(message)
      ensures responseHeaders == old(responseHeaders) && attributes == old(attributes)
    {
      status := Some(Unauthorized);
      contentType := Some(ApplicationJson);
      body := body + ErrorBody(message);
    }
  }

  class SessionInterceptor {
    const sessionService: SessionService

    constructor (sessionService: SessionService)
      ensures this.sessionService == sessionService
    {
      this.sessionService := sessionService;
    }

    /**
     * preHandle. The session id is checked before the user id; a request
     * that passes the gate carries the session's user as the current user,
     * and that user is the one the header named.
     */
    method PreHandle(ex: HttpExchange, uri: string, sessionId: Option<string>, userId: Option<string>, now: int, storeFails: bool)
      returns (proceed: bool)
      modifies ex
      ensures var found := ValidateUserSession(sessionService.repo.sessions, sessionId, userId, now, sessionService.encoder, storeFails);
        proceed <==> IsPublicEndpoint(uri) || (HasText(sessionId) && HasText(userId) && found.Some?)
      ensures IsPublicEndpoint(uri) ==>
                && ex.status == old(ex.status) && ex.body == old(ex.body) && ex.contentType == old(ex.contentType)
                && ex.responseHeaders == old(ex.responseHeaders) && ex.attributes == old(ex.attributes)
      ensures !IsPublicEndpoint(uri) && !HasText(sessionId) ==>
                ex.status == Some(Unauthorized) && ex.body == old(ex.body) + ErrorBody("Session ID required")
      ensures !IsPublicEndpoint(uri) && HasText(sessionId) && !HasText(userId) ==>
                ex.status == Some(Unauthorized) && ex.body == old(ex.body) + ErrorBody("User ID required")
      ensures !IsPublicEndpoint(uri) && HasText(sessionId) && HasText(userId) && !proceed ==>
                ex.status == Some(Unauthorized) && ex.body == old(ex.body) + ErrorBody("Invalid or expired session")
      ensures !proceed ==> ex.contentType == Some(ApplicationJson) && ex.responseHeaders == old(ex.responseHeaders) && ex.attributes == old(ex.attributes)
      ensures proceed && !IsPublicEndpoint(uri) ==>
                var found := ValidateUserSession(sessionService.repo.sessions, sessionId, userId, now, sessionService.encoder, storeFails);
                && ex.attributes == old(ex.attributes)[UserIdAttribute := found.value.userId]
                && found.value.userId == userId.value
                && found.value in sessionService.repo.sessions && !IsExpired(found.value, now)
                && ex.responseHeaders == old(ex.responseHeaders) + [(SessionIdHeader, sessionId.value), (UserIdHeader, userId.value)]
                && ex.status == old(ex.status) && ex.body == old(ex.body) && ex.contentType == old(ex.contentType)
    {
      if IsPublicEndpoint(uri) {
        return true;
      }
      if !HasText(sessionId) {
        ex.Reject("Session ID required");
        return false;
      }
      if !HasText(userId) {
        ex.Reject("User ID required");
        return false;
      }
      var found := ValidateUserSession(sessionService.repo.sessions, sessionId, userId, now, sessionService.encoder, storeFails);
      if found.None? {
        ex.Reject("Invalid or expired session");
        return false;
      }
      ex.attributes := ex.attributes[UserIdAttribute := found.value.userId];
      ex.responseHeaders := ex.responseHeaders + [(SessionIdHeader, sessionId.value), (UserIdHeader, userId.value)];
      proceed := true;
    }
  }
}
