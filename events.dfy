/**
 * The payloads carried on the three command topics, as the consumer reads
 * them. A payload that does not decode as the listener's event class is
 * `Malformed`.
 */
module Events {
  import opened Common

  /** A session command (consumer model SessionEvent). Times are seconds. */
  datatype SessionEvent = SessionEvent(
    command: string,
    hashedSessionId: string,
    userId: string,
    expiresAt: int,
    ipAddress: Option<string>,
    userAgent: Option<string>,
    timestamp: int)

  /** A user-activity command (consumer model UserActivityEvent); `userId` is null for an unknown user. */
  datatype UserActivityEvent = UserActivityEvent(
    command: string,
    username: string,
    userId: Option<string>,
    ipAddress: Option<string>,
    userAgent: Option<string>,
    successful: bool,
    timestamp: int,
    failureReason: Option<string>)
  {
    predicate IsUserCreation() {
      command == "USER_CREATION"
    }

    predicate IsLoginAttempt() {
      command == "LOGIN_ATTEMPT"
    }
  }

  /** A message command (consumer model MessageCommandEvent). */
  datatype MessageCommandEvent = MessageCommandEvent(
    command: string,
    threadId: string,
    senderId: string,
    senderUsername: string,
    content: string,
    timestamp: int)

  /** The text of a record: one of the three event shapes, or something that is not one. */
  datatype Payload =
    | SessionPayload(session: SessionEvent)
    | ActivityPayload(activity: UserActivityEvent)
    | MessagePayload(message: MessageCommandEvent)
    | Malformed(text: string)

  /** objectMapper.readValue(message, SessionEvent.class); None is a JsonProcessingException. */
  function DecodeSession(p: Payload): Option<SessionEvent> {
    if p.SessionPayload? then Some(p.session) else None
  }

  /** objectMapper.readValue(message, UserActivityEvent.class) */
  function DecodeActivity(p: Payload): Option<UserActivityEvent> {
    if p.ActivityPayload? then Some(p.activity) else None
  }

  /** objectMapper.readValue(message, MessageCommandEvent.class) */
  function DecodeMessage(p: Payload): Option<MessageCommandEvent> {
    if p.MessagePayload? then Some(p.message) else None
  }
}
