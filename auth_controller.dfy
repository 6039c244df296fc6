/**
 * The two decisions AuthController makes itself: which address identifies
 * the client, and whether a logout request carries a token to invalidate.
 */
module AuthController {
  import opened Common
  import opened SessionStore
  import opened SessionService

  /** The header the controller issues and reads the session token under. */
  const SessionTokenHeader: string := "X-Session-Token"

  /**
   * The optional request header logoutUser binds its token from: absent
   * (null in the controller) exactly when the request does not carry it.
   */
  function SessionTokenOf(headers: map<string, string>): (t: Option<string>)
    ensures t.None? <==> SessionTokenHeader !in headers
    ensures t.Some? ==> t.value == headers[SessionTokenHeader]
  {
    if SessionTokenHeader in headers then Some(headers[SessionTokenHeader]) else None
  }

  /** The response body ApiResponse.success / ApiResponse.error, with the HTTP status. */
  datatype Response = Response(status: int, success: bool, message: string)

  /** There is an element left once String.split(",") has dropped its trailing empty strings. */
  predicate HasNonComma(s: string) {
    exists i :: 0 <= i < |s| && s[i] != ','
  }

  /** The text before the first comma, or all of it. */
  function FirstField(s: string): (r: string)
    ensures ',' !in r
    ensures |r| <= |s| && s[..|r|] == r
    ensures |r| < |s| ==> s[|r|] == ','
  {
    if s == [] || s[0] == ',' then [] else [s[0]] + FirstField(s[1..])
  }

  /**
   * getClientIpAddress: the first X-Forwarded-For element, trimmed; else a
   * non-empty X-Real-IP verbatim; else the connection's address. A
   * forwarded-for value made only of commas splits into nothing, and taking
   * its first element throws.
   */
  function ClientIpAddress(forwardedFor: Option<string>, realIp: Option<string>, remoteAddr: string): (r: Result<string, string>)
    ensures !IsNullOrEmpty(forwardedFor) ==>
              && (r.Ok? <==> HasNonComma(forwardedFor.value))
              && (r.Ok? ==> r.value == Trim(FirstField(forwardedFor.value)))
    ensures IsNullOrEmpty(forwardedFor) && !IsNullOrEmpty(realIp) ==> r == Ok(realIp.value)
    ensures IsNullOrEmpty(forwardedFor) && IsNullOrEmpty(realIp) ==> r == Ok(remoteAddr)
  {
    if !IsNullOrEmpty(forwardedFor) then
      if HasNonComma(forwardedFor.value) then Ok(Trim(FirstField(forwardedFor.value)))
      else Err("Index 0 out of bounds for length 0")
    else if !IsNullOrEmpty(realIp) then Ok(realIp.value)
    else Ok(remoteAddr)
  }

  lemma {:induction false} FirstFieldOfJoined(client: string, rest: string)
    requires ',' !in client
    ensures FirstField(client + "," + rest) == client
  {
    if client != [] {
      assert (client + "," + rest)[1..] == client[1..] + "," + rest;
      FirstFieldOfJoined(client[1..], rest);
    }
  }

  /**
   * A proxy chain "client, proxy1, proxy2" identifies the client: the
   * element before the first comma, with its spaces trimmed, whatever the
   * proxies appended.
   */
  lemma ForwardedClientComesFirst(client: string, rest: string, realIp: Option<string>, remoteAddr: string)
    requires client != [] && ',' !in client
    ensures ClientIpAddress(Some(client + "," + rest), realIp, remoteAddr) == Ok(Trim(client))
  {
    FirstFieldOfJoined(client, rest);
    assert (client + "," + rest)[0] == client[0];
  }

  class AuthController {
    const sessionService: SessionService

    constructor (sessionService: SessionService)
      ensures this.sessionService == sessionService
    {
      this.sessionService := sessionService;
    }

    /**
     * logoutUser: a missing or blank token is a 400 and nothing changes;
     * otherwise the session the token opens, if any, is deleted and the
     * answer is 200.
     */
    method LogoutUser(sessionToken: Option<string>, now: int, storeFails: bool) returns (resp: Response)
      requires sessionService.repo.Valid()
      modifies sessionService.repo
      ensures sessionService.repo.Valid()
      ensures sessionToken.None? || IsBlank(sessionToken.value) ==>
                resp == Response(400, false, "No session token provided")
                && sessionService.repo.sessions == old(sessionService.repo.sessions)
      ensures sessionToken.Some? && !IsBlank(sessionToken.value) ==>
                var found := ValidateSession(old(sessionService.repo.sessions), sessionToken, now, sessionService.encoder, storeFails);
                && resp == Response(200, true, "Logout successful")
                && (found.None? ==> sessionService.repo.sessions == old(sessionService.repo.sessions))
                && (found.Some? ==> sessionService.repo.sessions == Without(old(sessionService.repo.sessions), {found.value.id}))
    {
      TrimEmptyIffBlank(sessionToken.GetOr([]));
      if sessionToken.Some? && Trim(sessionToken.value) != [] {
        sessionService.InvalidateSession(sessionToken, now, storeFails);
        resp := Response(200, true, "Logout successful");
      } else {
        resp := Response(400, false, "No session token provided");
      }
    }
  }
}
