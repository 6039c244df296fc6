/**
 * The command service's SessionService: it issues session tokens by
 * publishing an upsert command, validates a presented token against the
 * stored hashes, invalidates a session, and sweeps expired sessions.
 */
module SessionService {
  import opened Common
  import opened Events
  import opened Kafka
  import opened KafkaProducer
  import opened SessionStore
  import opened SessionStrategies
  import SessionCommands

  /** Seconds per hour: expiry is set in hours, times are seconds. */
  const SecondsPerHour: int := 3600

  /** SessionEvent.createOrUpdate: an UPSERT_SESSION command stamped with the current time. */
  function CreateOrUpdate(hash: string, userId: string, expiresAt: int, ip: Option<string>, ua: Option<string>, now: int)
    : (ev: SessionEvent)
    ensures SessionCommands.FromString(ev.command) == Ok(SessionCommands.UpsertSession)
  {
    SessionCommands.CommandRoundTrip(SessionCommands.UpsertSession);
    SessionEvent(SessionCommands.Command(SessionCommands.UpsertSession), hash, userId, expiresAt, ip, ua, now)
  }

  /** The record createSession publishes for a token issued at `now`. */
  function IssuedRecord(topics: Topics, enc: PasswordEncoder, expirationHours: int, userId: string,
                        ip: Option<string>, ua: Option<string>, token: string, now: int): Record
  {
    Record(topics.sessionCommands, Some(userId),
           SessionPayload(CreateOrUpdate(enc.encode(token), userId, now + expirationHours * SecondsPerHour, ip, ua, now)), None)
  }

  /** A stored session the token opens: not expired, and the token matches its hash. */
  predicate Usable(x: Session, token: string, now: int, enc: PasswordEncoder) {
    !IsExpired(x, now) && enc.matches(token, x.hashedToken)
  }

  /** `stream().filter(!isExpired).filter(matches).findFirst()` */
  function FirstUsable(candidates: seq<Session>, token: string, now: int, enc: PasswordEncoder): (r: Option<Session>)
    ensures r.Some? ==> r.value in candidates && Usable(r.value, token, now, enc)
    ensures r.None? <==> forall x :: x in candidates ==> !Usable(x, token, now, enc)
  {
    if candidates == [] then None
    else if Usable(candidates[0], token, now, enc) then Some(candidates[0])
    else FirstUsable(candidates[1..], token, now, enc)
  }

  /** The session found is the first usable one: every candidate before it is expired or does not match. */
  lemma {:induction false} FirstUsableIsFirst(candidates: seq<Session>, token: string, now: int, enc: PasswordEncoder)
    requires FirstUsable(candidates, token, now, enc).Some?
    ensures exists k ::
              && 0 <= k < |candidates| && candidates[k] == FirstUsable(candidates, token, now, enc).value
              && forall j :: 0 <= j < k ==> !Usable(candidates[j], token, now, enc)
  {
    if !Usable(candidates[0], token, now, enc) {
      FirstUsableIsFirst(candidates[1..], token, now, enc);
      var k :| 0 <= k < |candidates[1..]| && candidates[1..][k] == FirstUsable(candidates[1..], token, now, enc).value
        && forall j :: 0 <= j < k ==> !Usable(candidates[1..][j], token, now, enc);
      assert candidates[k + 1] == FirstUsable(candidates, token, now, enc).value;
      forall j | 0 <= j < k + 1
        ensures !Usable(candidates[j], token, now, enc)
      {
        if j > 0 {
          assert candidates[j] == candidates[1..][j - 1];
        }
      }
    }
  }

  /**
   * validateSession(sessionId): a null or empty token, or a store that
   * throws, finds nothing (it fails closed); otherwise the first usable
   * session of the whole store.
   */
  function ValidateSession(sessions: seq<Session>, sessionId: Option<string>, now: int, enc: PasswordEncoder, storeFails: bool)
    : (r: Option<Session>)
    ensures IsNullOrEmpty(sessionId) || storeFails ==> r.None?
    ensures r.Some? ==> r.value in sessions && !IsExpired(r.value, now) && enc.matches(sessionId.value, r.value.hashedToken)
    ensures r.None? && !IsNullOrEmpty(sessionId) && !storeFails ==>
              forall x :: x in sessions ==> IsExpired(x, now) || !enc.matches(sessionId.value, x.hashedToken)
  {
    if IsNullOrEmpty(sessionId) || storeFails then None
    else FirstUsable(sessions, sessionId.value, now, enc)
  }

  /**
   * validateSession(sessionId, userId): as above, but only the user's own
   * sessions are candidates, and a null or empty user id finds nothing.
   */
  function ValidateUserSession(sessions: seq<Session>, sessionId: Option<string>, userId: Option<string>, now: int,
                               enc: PasswordEncoder, storeFails: bool)
    : (r: Option<Session>)
    ensures IsNullOrEmpty(sessionId) || IsNullOrEmpty(userId) || storeFails ==> r.None?
    ensures r.Some? ==>
              && r.value in sessions && r.value.userId == userId.value
              && !IsExpired(r.value, now) && enc.matches(sessionId.value, r.value.hashedToken)
    ensures r.None? && !IsNullOrEmpty(sessionId) && !IsNullOrEmpty(userId) && !storeFails ==>
              forall x :: x in sessions && x.userId == userId.value ==> IsExpired(x, now) || !enc.matches(sessionId.value, x.hashedToken)
  {
    if IsNullOrEmpty(sessionId) || IsNullOrEmpty(userId) || storeFails then None
    else FirstUsable(UserSessions(sessions, userId.value), sessionId.value, now, enc)
  }

  lemma {:induction false} FirstUsableOfUser(s: seq<Session>, token: string, u: string, now: int, enc: PasswordEncoder)
    requires FirstUsable(s, token, now, enc).Some? && FirstUsable(s, token, now, enc).value.userId == u
    ensures FirstUsable(UserSessions(s, u), token, now, enc) == FirstUsable(s, token, now, enc)
  {
    if !Usable(s[0], token, now, enc) {
      FirstUsableOfUser(s[1..], token, u, now, enc);
      if s[0].userId == u {
        assert UserSessions(s, u)[1..] == UserSessions(s[1..], u);
      }
    }
  }

  /**
   * The two validations agree: when the whole-store lookup finds a session of
   * user u, the lookup scoped to u finds the same session.
   */
  lemma ScopedAgreesWithUnscoped(sessions: seq<Session>, sessionId: Option<string>, u: string, now: int, enc: PasswordEncoder)
    requires ValidateSession(sessions, sessionId, now, enc, false).Some?
    requires ValidateSession(sessions, sessionId, now, enc, false).value.userId == u && u != []
    ensures ValidateUserSession(sessions, sessionId, Some(u), now, enc, false) == ValidateSession(sessions, sessionId, now, enc, false)
  {
    FirstUsableOfUser(sessions, sessionId.value, u, now, enc);
  }

  /**
   * A token issued by createSession opens the session the consumer's upsert
   * leaves behind, for as long as it has not expired, provided the encoder
   * matches a secret against its own hash.
   */
  lemma CreatedSessionValidates(s: seq<Session>, nextId: Id, enc: PasswordEncoder, token: string, userId: string,
                                ip: Option<string>, ua: Option<string>, expiresAt: int, issuedAt: int, upsertedAt: int, later: int)
    requires token != [] && userId != [] && enc.matches(token, enc.encode(token)) && later <= expiresAt
    ensures var after := Upserted(s, nextId, CreateOrUpdate(enc.encode(token), userId, expiresAt, ip, ua, issuedAt), upsertedAt);
      |UserSessions(after, userId)| == 1
      && ValidateUserSession(after, Some(token), Some(userId), later, enc, false) == Some(UserSessions(after, userId)[0])
  {
    var ev := CreateOrUpdate(enc.encode(token), userId, expiresAt, ip, ua, issuedAt);
    var after := Upserted(s, nextId, ev, upsertedAt);
    UpsertLeavesOneSession(s, nextId, ev, upsertedAt);
    var mine := UserSessions(after, userId);
    assert mine == [mine[0]];
    assert Usable(mine[0], token, later, enc);
  }

  /** `findAll().stream().filter(isExpired)` */
  function ExpiredSessions(s: seq<Session>, now: int): (r: seq<Session>)
    ensures forall x :: x in r <==> x in s && IsExpired(x, now)
  {
    if s == [] then []
    else if IsExpired(s[0], now) then [s[0]] + ExpiredSessions(s[1..], now)
    else ExpiredSessions(s[1..], now)
  }

  /** The sessions not yet expired, in store order. */
  function LiveSessions(s: seq<Session>, now: int): (r: seq<Session>)
    ensures forall x :: x in r <==> x in s && !IsExpired(x, now)
  {
    if s == [] then []
    else if IsExpired(s[0], now) then LiveSessions(s[1..], now)
    else [s[0]] + LiveSessions(s[1..], now)
  }

  /** Deleting every expired session by id leaves exactly the live ones, in order. */
  lemma {:induction false} DeletingExpiredLeavesLive(s: seq<Session>, now: int)
    requires UniqueIds(s)
    ensures Without(s, IdsOf(ExpiredSessions(s, now))) == LiveSessions(s, now)
  {
    if s != [] {
      DeletingExpiredLeavesLive(s[1..], now);
      WithoutCongruent(s[1..], IdsOf(ExpiredSessions(s, now)), IdsOf(ExpiredSessions(s[1..], now)));
    }
  }

  class SessionService {
    const repo: SessionRepository
    const producer: KafkaProducerService
    const encoder: PasswordEncoder
    /** app.session.expiration-hours, 24 unless configured */
    const expirationHours: int

    constructor (repo: SessionRepository, producer: KafkaProducerService, encoder: PasswordEncoder, expirationHours: int)
      ensures this.repo == repo && this.producer == producer && this.encoder == encoder
      ensures this.expirationHours == expirationHours
    {
      this.repo := repo;
      this.producer := producer;
      this.encoder := encoder;
      this.expirationHours := expirationHours;
    }

    /**
     * createSession: the caller keeps the plaintext token; the store only
     * ever receives its hash, through one UPSERT_SESSION command keyed by the
     * user id and expiring expirationHours after now. A publishing fault
     * escapes and no token is handed out.
     */
    method CreateSession(userId: string, username: string, ip: Option<string>, ua: Option<string>, token: string,
                         now: int, fault: ProducerFault)
      returns (r: Result<string, PublishError>)
      modifies producer.broker
      ensures r.Ok? <==> fault.NoFault?
      ensures r.Ok? ==> r.value == token
      ensures r.Err? ==> r.error == ErrorFor(SessionCommand, fault)
      ensures producer.broker.log == old(producer.broker.log) +
        if r.Ok? then [IssuedRecord(producer.topics, encoder, expirationHours, userId, ip, ua, token, now)] else []
    {
      var hashed := encoder.encode(token);
      var expiresAt := now + expirationHours * SecondsPerHour;
      var ev := CreateOrUpdate(hashed, userId, expiresAt, ip, ua, now);
      var sent := producer.Send(SessionCommand, SessionPayload(ev), Some(userId), fault);
      if sent.Err? {
        return Err(sent.error);
      }
      r := Ok(token);
    }

    /**
     * invalidateSession: the session the token validates, if any, is deleted;
     * no other session changes, and nothing happens when none validates.
     */
    method InvalidateSession(sessionId: Option<string>, now: int, storeFails: bool)
      requires repo.Valid()
      modifies repo
      ensures repo.Valid() && repo.nextId == old(repo.nextId)
      ensures var found := ValidateSession(old(repo.sessions), sessionId, now, encoder, storeFails);
        && (found.None? ==> repo.sessions == old(repo.sessions))
        && (found.Some? ==>
              repo.sessions == Without(old(repo.sessions), {found.value.id})
              && found.value !in repo.sessions && |repo.sessions| == |old(repo.sessions)| - 1)
    {
      var found := ValidateSession(repo.sessions, sessionId, now, encoder, storeFails);
      if found.Some? {
        WithoutOneId(repo.sessions, found.value);
        repo.Delete(found.value);
      }
    }

    /**
     * cleanupExpiredSessions: afterwards exactly the live sessions remain, in
     * order; deleteAll runs only when something has expired. A store failure
     * becomes SessionCleanupException.
     */
    method CleanupExpiredSessions(now: int, storeFails: bool) returns (r: Result<(), string>)
      requires repo.Valid()
      modifies repo
      ensures repo.Valid() && repo.nextId == old(repo.nextId)
      ensures r.Err? <==> storeFails
      ensures r.Err? ==> r.error == "Failed to cleanup expired sessions" && repo.sessions == old(repo.sessions)
      ensures r.Ok? ==> repo.sessions == LiveSessions(old(repo.sessions), now)
    {
      if storeFails {
        return Err("Failed to cleanup expired sessions");
      }
      var expired := ExpiredSessions(repo.sessions, now);
      DeletingExpiredLeavesLive(repo.sessions, now);
      if expired != [] {
        repo.DeleteAll(expired);
      } else {
        assert IdsOf(expired) == {};
        WithoutNothing(repo.sessions);
      }
      r := Ok(());
    }
  }
}
