/**
 * The command service's UserService: registration and login. Each publishes
 * one user-activity command; a successful login also issues a session.
 */
module UserService {
  import opened Common
  import opened Events
  import opened Kafka
  import opened KafkaProducer
  import opened ServiceErrors
  import opened UserStore
  import Decimal
  import opened SessionService
  import UserActivityCommands
  import UserActivityActions
  import UserActivityStrategy

  /** UserRegisterRequest as received; its compact constructor trims and lower-cases the name. */
  datatype RegisterRequest = RegisterRequest(username: string, email: string, password: string)

  /** LoginRequest; getTrimmedUsername trims and lower-cases the name. */
  datatype LoginRequest = LoginRequest(username: string, password: string)

  /** UserService.AuthenticationResult; absent fields are null. */
  datatype AuthenticationResult = AuthenticationResult(
    successful: bool,
    failureReason: Option<string>,
    sessionId: Option<string>,
    userId: Option<string>)

  const UserNotFoundReason: string := "User not found"
  const InvalidPasswordReason: string := "Invalid password"
  /** The key of an activity record for a user name nobody has. */
  const UnknownKey: string := "unknown"

  /**
   * validateUserCredentials: a missing account fails with "User not found"
   * and no user id; a wrong password fails with "Invalid password" and the
   * account's id; a match succeeds without a reason. No session yet.
   */
  function ValidateUserCredentials(user: Option<User>, password: string, enc: PasswordEncoder): (r: AuthenticationResult)
    ensures r.successful <==> user.Some? && enc.matches(password, user.value.passwordHash)
    ensures r.failureReason.None? <==> r.successful
    ensures user.None? ==> r.failureReason == Some(UserNotFoundReason) && r.userId.None?
    ensures user.Some? ==> r.userId == Some(user.value.id)
    ensures user.Some? && !r.successful ==> r.failureReason == Some(InvalidPasswordReason)
    ensures r.sessionId.None?
  {
    if user.None? then AuthenticationResult(false, Some(UserNotFoundReason), None, None)
    else if !enc.matches(password, user.value.passwordHash) then
      AuthenticationResult(false, Some(InvalidPasswordReason), None, Some(user.value.id))
    else AuthenticationResult(true, None, None, Some(user.value.id))
  }

  /** The activity command a registration publishes. */
  function CreationEvent(username: string, userId: string, ip: Option<string>, ua: Option<string>, now: int): UserActivityEvent {
    UserActivityEvent(UserActivityCommands.Value(UserActivityCommands.UserCreation), username, Some(userId), ip, ua, true, now, None)
  }

  /** The activity command a login attempt publishes. */
  function LoginEvent(username: string, result: AuthenticationResult, ip: Option<string>, ua: Option<string>, now: int)
    : UserActivityEvent
  {
    UserActivityEvent(UserActivityCommands.Value(UserActivityCommands.LoginAttempt), username, result.userId, ip, ua,
                      result.successful, now, result.failureReason)
  }

  /**
   * The consumer accepts both commands and logs them with the action the
   * attempt deserves: a registration as USER_CREATION, a login as a login
   * attempt that is a success exactly when the login was.
   */
  lemma ActivityEventsAreLogged(username: string, userId: string, result: AuthenticationResult,
                                ip: Option<string>, ua: Option<string>, now: int)
    ensures UserActivityCommands.FromString(CreationEvent(username, userId, ip, ua, now).command).Ok?
    ensures UserActivityStrategy.DetermineAction(CreationEvent(username, userId, ip, ua, now))
              == Ok(UserActivityActions.UserCreation)
    ensures UserActivityCommands.FromString(LoginEvent(username, result, ip, ua, now).command).Ok?
    ensures UserActivityStrategy.DetermineAction(LoginEvent(username, result, ip, ua, now))
              == Ok(UserActivityActions.FromLoginResult(result.successful))
  {
    UserActivityCommands.ValueRoundTrip(UserActivityCommands.UserCreation);
    UserActivityCommands.ValueRoundTrip(UserActivityCommands.LoginAttempt);
  }

  class UserService {
    const users: UserRepository
    const producer: KafkaProducerService
    const sessions: SessionService
    const encoder: PasswordEncoder

    /** The session service publishes through the same producer. */
    predicate Valid() {
      sessions.producer == producer
    }

    constructor (users: UserRepository, producer: KafkaProducerService, sessions: SessionService, encoder: PasswordEncoder)
      requires sessions.producer == producer
      ensures Valid()
      ensures this.users == users && this.producer == producer && this.sessions == sessions && this.encoder == encoder
    {
      this.users := users;
      this.producer := producer;
      this.sessions := sessions;
      this.encoder := encoder;
    }

    /**
     * registerUser: a taken name is a ConflictException with nothing saved
     * or published. Otherwise the account is saved with the password's hash,
     * then one USER_CREATION command keyed by the new id is published; a
     * publishing fault escapes after the account has been saved.
     */
    method RegisterUser(request: RegisterRequest, ip: Option<string>, ua: Option<string>, now: int, fault: ProducerFault)
      returns (r: Result<User, ServiceError>)
      requires users.Valid()
      modifies users, producer.broker
      ensures users.Valid()
      ensures r == Err(Conflict("Username already exists")) <==> old(users.ExistsByUsername(TrimLower(request.username)))
      ensures old(users.ExistsByUsername(TrimLower(request.username))) ==>
                users.users == old(users.users) && producer.broker.log == old(producer.broker.log)
      ensures !old(users.ExistsByUsername(TrimLower(request.username))) ==>
                var saved := User(Decimal.NatToDecimal(old(users.nextId)), TrimLower(request.username),
                                  encoder.encode(request.password), now);
                && users.users == old(users.users) + [saved]
                && (r.Ok? <==> fault.NoFault?)
                && (r.Ok? ==> r.value == saved)
                && (r.Err? ==> r.error == PublishFailed(ErrorFor(UserCommand, fault)))
                && producer.broker.log == old(producer.broker.log) +
                     if r.Ok? then [Record(producer.topics.userCommands, Some(saved.id),
                                           ActivityPayload(CreationEvent(saved.username, saved.id, ip, ua, now)), None)]
                     else []
    {
      var username := TrimLower(request.username);
      if users.ExistsByUsername(username) {
        return Err(Conflict("Username already exists"));
      }
      var saved := users.Save(User("", username, encoder.encode(request.password), now));
      var ev := CreationEvent(saved.username, saved.id, ip, ua, now);
      var sent := producer.Send(UserCommand, ActivityPayload(ev), Some(saved.id), fault);
      if sent.Err? {
        return Err(PublishFailed(sent.error));
      }
      r := Ok(saved);
    }

    /**
     * authenticateUser: the credentials are checked against the account with
     * the normalised name; only a success issues a session (whose token the
     * result carries); then exactly one LOGIN_ATTEMPT command is published,
     * keyed by the user id or "unknown". A publishing fault escapes.
     */
    /** The outcome of the credential check for a login request, before any session exists. */
    function Checked(request: LoginRequest): AuthenticationResult
      reads users
    {
      ValidateUserCredentials(users.FindByUsername(TrimLower(request.username)), request.password, encoder)
    }

    /** The session command a successful check publishes. */
    function Issued(checked: AuthenticationResult, ip: Option<string>, ua: Option<string>, token: string, now: int): seq<Record>
      requires checked.successful ==> checked.userId.Some?
    {
      if checked.successful then
        [IssuedRecord(producer.topics, sessions.encoder, sessions.expirationHours, checked.userId.value, ip, ua, token, now)]
      else []
    }

    /** The LOGIN_ATTEMPT command, keyed by the user id or "unknown". */
    function Attempt(request: LoginRequest, checked: AuthenticationResult, ip: Option<string>, ua: Option<string>, now: int): Record {
      Record(producer.topics.userCommands, Some(checked.userId.GetOr(UnknownKey)),
             ActivityPayload(LoginEvent(TrimLower(request.username), checked, ip, ua, now)), None)
    }

    /**
     * authenticateUser: the credentials are checked against the account with
     * the normalised name; only a success issues a session (whose token the
     * result carries); then exactly one LOGIN_ATTEMPT command is published,
     * keyed by the user id or "unknown". A publishing fault escapes.
     */
    method AuthenticateUser(request: LoginRequest, ip: Option<string>, ua: Option<string>, token: string, now: int,
                            sessionFault: ProducerFault, activityFault: ProducerFault)
      returns (r: Result<AuthenticationResult, PublishError>)
      requires Valid()
      modifies producer.broker
      ensures r.Ok? <==> (!old(Checked(request)).successful || sessionFault.NoFault?) && activityFault.NoFault?
      ensures r.Ok? ==>
                && r.value == old(Checked(request)).(sessionId := if old(Checked(request)).successful then Some(token) else None)
                && producer.broker.log == old(producer.broker.log) + Issued(old(Checked(request)), ip, ua, token, now)
                                          + [Attempt(request, old(Checked(request)), ip, ua, now)]
      ensures r.Err? && old(Checked(request)).successful && !sessionFault.NoFault? ==>
                r.error == ErrorFor(SessionCommand, sessionFault) && producer.broker.log == old(producer.broker.log)
      ensures r.Err? && (!old(Checked(request)).successful || sessionFault.NoFault?) ==>
                && r.error == ErrorFor(UserCommand, activityFault)
                && producer.broker.log == old(producer.broker.log) + Issued(old(Checked(request)), ip, ua, token, now)
    {
      var username := TrimLower(request.username);
      var user := users.FindByUsername(username);
      var result := ValidateUserCredentials(user, request.password, encoder);
      assert result == Checked(request);
      assert result.successful ==> user.Some? && result.userId == Some(user.value.id);
      ghost var issued := Issued(result, ip, ua, token, now);
      var sessionToken: Option<string> := None;
      if result.successful {
        var created := sessions.CreateSession(user.value.id, username, ip, ua, token, now, sessionFault);
        if created.Err? {
          return Err(created.error);
        }
        sessionToken := Some(created.value);
      }
      assert producer.broker.log == old(producer.broker.log) + issued;
      var sent := producer.Send(UserCommand, ActivityPayload(LoginEvent(username, result, ip, ua, now)),
                                Some(result.userId.GetOr(UnknownKey)), activityFault);
      if sent.Err? {
        return Err(sent.error);
      }
      r := Ok(result.(sessionId := sessionToken));
    }
  }
}
