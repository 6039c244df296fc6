# Command pipeline of the messaging service, in Dafny

The messaging service is a CQRS chat backend. Its command service (Spring
Boot) accepts registrations, logins, sessions and messages over HTTP and
turns every state change into a command published on Kafka: a session
command (`UPSERT_SESSION`, `SAVE_SESSION`, `UPDATE_SESSION`,
`DELETE_SESSION`, `EXPIRE_SESSION`), a user-activity command
(`USER_CREATION`, `LOGIN_ATTEMPT`) or a message command (`SEND_MESSAGE`).
The consumer service listens on those topics and on their retry topics,
resolves each command to a strategy object and applies it to MongoDB. A
failing delivery is republished to the retry topic with an `x-retryCount`
header one higher, until `maxRetry` is reached. A GraphQL middleware talks
to the command service over REST and maps its errors.

This project models that pipeline:

- the broker as a log of records (topic, key, payload, retry header) and
  the collections as sequences (sessions, users, messages) or a map (one
  activity log per user id);
- the three consumers' listeners, their shared escalation through
  `handleRetry`, and the two strategy factories with their builders;
- the five session strategies, each proved against a function giving the
  store it leaves behind, and the unified user-activity strategy;
- the command side: `SessionService`, `UserService`,
  `KafkaProducerService`, `MessageService` with `HistoryRequest`,
  `ActivityLogDto`, the `SessionInterceptor`, and the logout guard and
  client-address extraction of `AuthController`;
- `getErrorCode`, `handleError`, `sanitizeHeaders` and the logout headers
  of the middleware's REST client.

Time is an integer number of seconds passed in as `now`. A store or broker
failure is a parameter (`storeFails`, `ProducerFault`). The JSON codec is
abstracted: a payload is either a decoded event or `Malformed`. Password
hashing is a `PasswordEncoder` value holding `encode` and `matches`, and
the random session token is a parameter.

Where the repository's files do not agree with each other, the model
takes one side:

- `MessageService.sendMessage` builds `MessageCommand` with five values,
  but the command-side record has four. The event carries the thread id,
  sender id, sender name, content and timestamp, which are the fields the
  consumer's `MessageCommandEvent` reads.
- The consumer's session repository declares `findByHashedSessionToken`,
  while the delete strategy calls `findByHashedSessionId`. Both are
  `FindByHash`.
- The consumer's `SessionCommand` has no `fromStringOptional`. It is
  modelled like `UserActivityCommand.fromStringOptional`.
- The consumer's `ActivityLogDto` has no log list. The command side's
  `ActivityLogDto` is used for both.
- `UserActivityEvent.createUserCreation` and `createLoginAttempt` are not
  defined anywhere. The events carry the commands `USER_CREATION` and
  `LOGIN_ATTEMPT`, which the consumer expects.
- The consumer's `SessionDto` names its hash field `hashedSessionToken`,
  while the upsert strategy calls `setHashedSessionId` on it. Both are the
  one field `hashedToken` of `Session`.
- The command side's `SessionEvent` is serialised with the key
  `hashedSessionToken`, while the consumer's `SessionEvent` reads the key
  `hashedSessionId`. The event carries the hash under one field, so the
  consumer sees the hash the command side sent.
- The command side's `SessionDto` names its hash field `hashedSessionId`
  and `SessionService` reads it through `getHashedSessionId`, while the
  consumer's `SessionDto` names it `hashedSessionToken`. The two are the
  same collection, so both are the one field `hashedToken` of `Session`.
- The command side's `SessionRepository` declares no query, while
  `SessionService.validateSession` calls `findByUserId` on it. It is
  modelled as the consumer's `findByUserId`: the user's sessions in store
  order (`UserSessions`).
- `MessageService.sendMessage` returns a `MessageDto` built with four
  arguments, but the command-side `MessageDto` declares only a
  three-argument and a six-argument constructor. The model follows the
  three-argument one: the returned message has status "sent" and the
  current time as its timestamp.
- The consumer's `MessageDto` declares a single `sender` field, while
  `MessageConsumerService` builds it with `senderId` and `senderUsername`.
  The stored message carries the two fields the builder sets.
- The command-side `MessageRepository` declares only the paged query and
  the count. `getConversation` also calls an unpaged query; it is
  modelled as the same ordering without a page.

Several observations about how the parts fit together are proved as
lemmas rather than listed as findings, because each part behaves as its
own code says:

- The middleware's `logout` sends the session in `X-Session-Id`, while
  `AuthController.logoutUser` reads `X-Session-Token`. Such a request is
  answered 400 "No session token provided"
  (`RestApiClient.ClientLogoutCarriesNoToken` shows that the controller
  binds no token; `AuthController.LogoutUser` answers a missing token
  with 400).
- `sanitizeHeaders` redacts `X-Session-Id` and `Authorization`, but not
  `X-Session-Token`, the header in which login returns the token
  (`RestApiClient.IssuedTokenIsNotRedacted`).
- `handleError` defaults a missing status to 500, so an error without a
  response is `INTERNAL_SERVER_ERROR`. The middleware's test expects
  `UNKNOWN_ERROR`; the model follows the code
  (`RestApiClient.NoResponseIsInternalError`).
- `UserActivityAction` gives `LOGIN_SUCCESS` and `LOGIN_FAILURE` the same
  value, so reading back the value of a failed login yields
  `LOGIN_SUCCESS` (`UserActivityActions.LoginFailureReadsBackAsSuccess`).
- In all three consumers `Integer.parseInt` runs on the header before the
  `try` block. A malformed header therefore escapes the listener with
  nothing retried (`Outcome.HeaderRejected`).
- No listener is declared on the message retry topic, so copies
  republished there are not consumed by this service.

## Model

| member | source | states |
|---|---|---|
| Common.TrimEmptyIffBlank | messaging-command-service/src/main/java/com/github/melihemreguler/turknetmessagingservice/model/api/HistoryRequest.java:43-44 | `trim()` is empty exactly when every character is at or below U+0020 |
| Common.Utf16Units | messaging-command-service/src/main/java/com/github/melihemreguler/turknetmessagingservice/service/MessageService.java:174 | one code unit below U+10000, otherwise two units of which the first is a high surrogate; every unit fits in 16 bits |
| Common.Utf16 | messaging-command-service/src/main/java/com/github/melihemreguler/turknetmessagingservice/service/MessageService.java:174 | at least one unit per character, beginning with the first character's units |
| Common.Utf16Injective | messaging-command-service/src/main/java/com/github/melihemreguler/turknetmessagingservice/service/MessageService.java:174 | distinct strings have distinct UTF-16 encodings |
| Common.CompareUnits | messaging-command-service/src/main/java/com/github/melihemreguler/turknetmessagingservice/service/MessageService.java:174 | zero only for equal unit sequences |
| Common.CompareTo | messaging-command-service/src/main/java/com/github/melihemreguler/turknetmessagingservice/service/MessageService.java:174 | `compareTo` over UTF-16 code units; zero only for equal strings |
| Common.CompareToUsesCodeUnits | messaging-command-service/src/main/java/com/github/melihemreguler/turknetmessagingservice/service/MessageService.java:174 | a character beyond U+FFFF sorts by its high surrogate, and it counts as two units in a length difference |
| Common.CompareToAntisymmetric | messaging-command-service/src/main/java/com/github/melihemreguler/turknetmessagingservice/service/MessageService.java:174 | `compareTo(a, b)` is the negation of `compareTo(b, a)`, which makes the thread id independent of argument order |
| Common.TrimLower | messaging-command-service/src/main/java/com/github/melihemreguler/turknetmessagingservice/model/api/HistoryRequest.java:30 | no longer than the input, with no trimmable character at either end |
| Common.TrimLowerIsLowerCase | messaging-command-service/src/main/java/com/github/melihemreguler/turknetmessagingservice/model/api/HistoryRequest.java:30 | as long as the trimmed string, each character the trimmed one or its lower case, and no ASCII capital left |
| Decimal.ParseIntOfIntToString | messaging-consumer/src/main/java/com/github/melihemreguler/messagingconsumer/service/SessionConsumerService.java:114-124 | a retry count written with `String.valueOf` is read back by `Integer.parseInt` as the same int |
| Decimal.ParseIntRejectsNonDigits | messaging-consumer/src/main/java/com/github/melihemreguler/messagingconsumer/service/SessionConsumerService.java:40 | a header with a character after the sign position that `Character.digit` does not read as a decimal digit is a NumberFormatException, not a number |
| Decimal.ParseInt | messaging-consumer/src/main/java/com/github/melihemreguler/messagingconsumer/service/SessionConsumerService.java:40 | an optional sign, then at least one decimal digit of any script in the Basic Multilingual Plane, read as a value that fits in 32 bits; anything else is rejected |
| Decimal.ParseIntReadsEveryScript | messaging-consumer/src/main/java/com/github/melihemreguler/messagingconsumer/service/SessionConsumerService.java:40 | a header "1" followed by ARABIC-INDIC DIGIT THREE is read as 13, as `Character.digit` reads it |
| SessionStore.SessionRepository.FindByUserId | messaging-consumer/src/main/java/com/github/melihemreguler/messagingconsumer/repository/SessionRepository.java:17 | the user's sessions, in store order |
| SessionStore.SessionRepository.FindByHash | messaging-consumer/src/main/java/com/github/melihemreguler/messagingconsumer/repository/SessionRepository.java:15 | the first session with that hash, or none exactly when no session has it |
| SessionStore.SessionRepository.Insert | messaging-consumer/src/main/java/com/github/melihemreguler/messagingconsumer/strategy/session/impl/SaveSessionStrategy.java:33 | a new document gets the next id and is appended; ids stay unique |
| SessionStore.SessionRepository.Save | messaging-consumer/src/main/java/com/github/melihemreguler/messagingconsumer/strategy/session/impl/UpdateSessionStrategy.java:33 | saving a stored document overwrites the document with that id and nothing else |
| SessionStore.SessionRepository.Delete | messaging-consumer/src/main/java/com/github/melihemreguler/messagingconsumer/strategy/session/impl/DeleteSessionStrategy.java:24 | exactly the documents with that id are removed; the rest keep their order |
| SessionStore.SessionRepository.DeleteAll | messaging-command-service/src/main/java/com/github/melihemreguler/turknetmessagingservice/service/SessionService.java:99 | every document with one of the given ids is removed; the rest keep their order |
| SessionCommands.FromStringOptional | messaging-consumer/src/main/java/com/github/melihemreguler/messagingconsumer/service/SessionConsumerService.java:98 | the constant whose command text equals the string, and none when no constant has it |
| SessionCommands.CommandsInjective | messaging-consumer/src/main/java/com/github/melihemreguler/messagingconsumer/enums/SessionCommand.java:4-8 | no two of the five constants carry the same command text |
| SessionCommands.FromString | messaging-consumer/src/main/java/com/github/melihemreguler/messagingconsumer/enums/SessionCommand.java:25-32 | the constant with that command text; otherwise IllegalArgumentException "Unknown command: " + s |
| SessionCommands.CommandRoundTrip | messaging-consumer/src/main/java/com/github/melihemreguler/messagingconsumer/enums/SessionCommand.java:4-32 | `fromString(c.getCommand()) == c` for all five commands, so the five texts are distinct |
| UserActivityCommands.FromString | messaging-consumer/src/main/java/com/github/melihemreguler/messagingconsumer/enums/UserActivityCommand.java:19-26 | the constant with that value; otherwise IllegalArgumentException with the value in the message |
| UserActivityCommands.FromStringOptional | messaging-consumer/src/main/java/com/github/melihemreguler/messagingconsumer/enums/UserActivityCommand.java:28-35 | the constant with that value, and empty exactly when none has it |
| UserActivityCommands.OptionalAgreesWithFromString | messaging-consumer/src/main/java/com/github/melihemreguler/messagingconsumer/enums/UserActivityCommand.java:19-35 | `fromStringOptional` is empty exactly when `fromString` throws, and otherwise holds the same constant |
| UserActivityCommands.ValueRoundTrip | messaging-consumer/src/main/java/com/github/melihemreguler/messagingconsumer/enums/UserActivityCommand.java:19-24 | `fromString(c.getValue()) == c` for both constants |
| UserActivityActions.FromString | messaging-consumer/src/main/java/com/github/melihemreguler/messagingconsumer/enums/UserActivityAction.java:20-27 | a constant with that value, or IllegalArgumentException exactly when no constant has it |
| UserActivityActions.FromStringOptional | messaging-consumer/src/main/java/com/github/melihemreguler/messagingconsumer/enums/UserActivityAction.java:29-36 | a constant with that value, and empty exactly when none has it |
| UserActivityActions.FromLoginResult | messaging-consumer/src/main/java/com/github/melihemreguler/messagingconsumer/enums/UserActivityAction.java:47-49 | a login activity, `LOGIN_SUCCESS` exactly when the login succeeded |
| UserActivityActions.KindsPartition | messaging-consumer/src/main/java/com/github/melihemreguler/messagingconsumer/enums/UserActivityAction.java:38-44 | each action is either a login activity or a user creation, never both |
| UserActivityActions.LoginFailureReadsBackAsSuccess | messaging-consumer/src/main/java/com/github/melihemreguler/messagingconsumer/enums/UserActivityAction.java:7-27 | the value of `LOGIN_FAILURE` reads back as `LOGIN_SUCCESS`; the other two round-trip |
| KafkaProducer.ErrorFor | messaging-command-service/src/main/java/com/github/melihemreguler/turknetmessagingservice/service/KafkaProducerService.java:30-35 | a serialisation fault is MessageSerializationException, a send fault KafkaPublishingException |
| KafkaProducer.KafkaProducerService.Send | messaging-command-service/src/main/java/com/github/melihemreguler/turknetmessagingservice/service/KafkaProducerService.java:25-65 | on success exactly one record, keyed by the user id, on the kind's topic; on a fault the error and no record |
| Retry.AttemptOf | messaging-consumer/src/main/java/com/github/melihemreguler/messagingconsumer/service/SessionConsumerService.java:37-40 | a missing header counts as attempt 0; otherwise the header is parsed as `Integer.parseInt` does, digits of every script included, and a parsed count is a 32-bit int |
| Retry.Escalate | messaging-consumer/src/main/java/com/github/melihemreguler/messagingconsumer/service/SessionConsumerService.java:114-133 | republish exactly when attempt < maxRetry, to the retry topic with no key, the unchanged payload and a header holding the decimal text of attempt + 1; otherwise MaxRetryExceededException(message, maxRetry, cause) |
| Retry.RetryCopyReadsBack | messaging-consumer/src/main/java/com/github/melihemreguler/messagingconsumer/service/SessionConsumerService.java:114-124 | the retry listener parses the copy's header back as exactly the count that was written |
| Retry.Escalated | messaging-consumer/src/main/java/com/github/melihemreguler/messagingconsumer/service/SessionConsumerService.java:114-133 | the outcome is a retry exactly when attempt < maxRetry, with exactly one record; otherwise the exception escapes and nothing is published |
| Retry.HandleRetry | messaging-consumer/src/main/java/com/github/melihemreguler/messagingconsumer/service/UserActivityConsumerService.java:101-120 | the broker log grows by exactly the escalation's records, and the outcome is the escalation's |
| Retry.Delivery | messaging-consumer/src/main/java/com/github/melihemreguler/messagingconsumer/service/SessionConsumerService.java:37-64 | a malformed header escapes with nothing published; a success publishes nothing; every failure is retried or exhausted |
| Retry.SameRetryPathForEveryCause | messaging-consumer/src/main/java/com/github/melihemreguler/messagingconsumer/service/SessionConsumerService.java:54-63 | a decode failure, an unknown command and a processing exception publish the same records and agree on whether they retry |
| Retry.MissingHeaderIsFirstAttempt | messaging-consumer/src/main/java/com/github/melihemreguler/messagingconsumer/service/SessionConsumerService.java:37-40 | a delivery without the header escalates as attempt 0 |
| Retry.RetriesAreBounded | messaging-consumer/src/main/java/com/github/melihemreguler/messagingconsumer/service/SessionConsumerService.java:114-131 | a message that always fails is republished exactly maxRetry - attempt times, and never at or beyond the limit |
| Retry.FailingDeliveryAt | messaging-consumer/src/main/java/com/github/melihemreguler/messagingconsumer/service/SessionConsumerService.java:114-131 | the i-th republished record of an always-failing message is the escalation of attempt + i, which lies below the limit |
| Retry.RetryCountsAscend | messaging-consumer/src/main/java/com/github/melihemreguler/messagingconsumer/service/SessionConsumerService.java:115-124 | the i-th republished copy is the unchanged payload on the retry topic with count attempt + 1 + i |
| Retry.MessageRetryRecordAsWritten | messaging-consumer/src/main/java/com/github/melihemreguler/messagingconsumer/service/MessageConsumerService.java:65-71 | the message consumer's retry record is the payload on the retry topic with no key and no count header |
| Retry.AsWrittenRetryRestartsAtZero | messaging-consumer/src/main/java/com/github/melihemreguler/messagingconsumer/service/MessageConsumerService.java:66-71 | that record is read back as attempt 0, never attempt + 1, and escalates again |
| StrategyFactories.SessionStrategiesDistinct | messaging-consumer/src/main/java/com/github/melihemreguler/messagingconsumer/strategy/session/SessionCommandStrategyFactory.java:31-37 | no two session commands are registered with the same strategy |
| StrategyFactories.SessionStrategyMapBuilder.WithStrategy | messaging-consumer/src/main/java/com/github/melihemreguler/messagingconsumer/strategy/session/SessionCommandStrategyFactory.java:52-55 | the builder's map gets that entry and keeps the others |
| StrategyFactories.SessionStrategyMapBuilder.Build | messaging-consumer/src/main/java/com/github/melihemreguler/messagingconsumer/strategy/session/SessionCommandStrategyFactory.java:57-59 | the map as built so far, a value later puts cannot change |
| StrategyFactories.SessionCommandStrategyFactory.InitializeStrategies | messaging-consumer/src/main/java/com/github/melihemreguler/messagingconsumer/strategy/session/SessionCommandStrategyFactory.java:30-38 | the built map holds every command, each with its own strategy |
| StrategyFactories.SessionCommandStrategyFactory.GetStrategy | messaging-consumer/src/main/java/com/github/melihemreguler/messagingconsumer/strategy/session/SessionCommandStrategyFactory.java:23-28 | a command gets its own strategy and a null command none; a map already built is reused unchanged |
| StrategyFactories.UserActivityStrategyMapBuilder.WithStrategy | messaging-consumer/src/main/java/com/github/melihemreguler/messagingconsumer/strategy/user/UserActivityStrategyFactory.java:45-48 | the builder's map gets that entry and keeps the others |
| StrategyFactories.UserActivityStrategyMapBuilder.Build | messaging-consumer/src/main/java/com/github/melihemreguler/messagingconsumer/strategy/user/UserActivityStrategyFactory.java:50-52 | the map as built so far |
| StrategyFactories.UserActivityStrategyFactory.InitializeStrategies | messaging-consumer/src/main/java/com/github/melihemreguler/messagingconsumer/strategy/user/UserActivityStrategyFactory.java:26-31 | the map has exactly the two commands, both on the unified strategy |
| StrategyFactories.UserActivityStrategyFactory.GetStrategy | messaging-consumer/src/main/java/com/github/melihemreguler/messagingconsumer/strategy/user/UserActivityStrategyFactory.java:19-24 | both commands resolve to the unified strategy and a null command to none; the map is built once |
| SessionStrategies.NewSession | messaging-consumer/src/main/java/com/github/melihemreguler/messagingconsumer/strategy/session/impl/SaveSessionStrategy.java:22-31 | hash, user, expiry, address and agent come from the event; creation and last access are the event timestamp |
| SessionStrategies.UpsertLeavesOneSession | messaging-consumer/src/main/java/com/github/melihemreguler/messagingconsumer/strategy/session/impl/UpsertSessionStrategy.java:23-58 | afterwards the user has exactly one session, holding the event's hash, expiry, address and agent; it is new with the event timestamp, or the first old one with last access now |
| SessionStrategies.UpsertKeepsOthers | messaging-consumer/src/main/java/com/github/melihemreguler/messagingconsumer/strategy/session/impl/UpsertSessionStrategy.java:23 | other users' sessions are unchanged and in the same order |
| SessionStrategies.UpsertIdempotent | messaging-consumer/src/main/java/com/github/melihemreguler/messagingconsumer/strategy/session/impl/UpsertSessionStrategy.java:25-44 | a second identical upsert leaves the same single session apart from last access |
| SessionStrategies.UpdateTouchesOnlyFirst | messaging-consumer/src/main/java/com/github/melihemreguler/messagingconsumer/strategy/session/impl/UpdateSessionStrategy.java:24-37 | only the user's first session changes; last access becomes now; address and agent only where the event has one; ids, hashes, expiries and the count are kept; no session means no change |
| SessionStrategies.SaveAppendsOne | messaging-consumer/src/main/java/com/github/melihemreguler/messagingconsumer/strategy/session/impl/SaveSessionStrategy.java:19-35 | exactly one session is appended and the old ones are untouched: no de-duplication |
| SessionStrategies.DeleteRemovesAtMostOne | messaging-consumer/src/main/java/com/github/melihemreguler/messagingconsumer/strategy/session/impl/DeleteSessionStrategy.java:21-27 | the session found by hash, and only it, is removed; with no match nothing changes |
| SessionStrategies.UpsertSessionStrategy.Execute | messaging-consumer/src/main/java/com/github/melihemreguler/messagingconsumer/strategy/session/impl/UpsertSessionStrategy.java:19-61 | the store becomes `Upserted`; an id is used only when a session is created |
| SessionStrategies.UpsertSessionStrategy.DeleteDuplicates | messaging-consumer/src/main/java/com/github/melihemreguler/messagingconsumer/strategy/session/impl/UpsertSessionStrategy.java:37-40 | each of the user's sessions after the first is deleted by id |
| SessionStrategies.UpdateSessionStrategy.Execute | messaging-consumer/src/main/java/com/github/melihemreguler/messagingconsumer/strategy/session/impl/UpdateSessionStrategy.java:19-38 | the store becomes `Updated` |
| SessionStrategies.SaveSessionStrategy.Execute | messaging-consumer/src/main/java/com/github/melihemreguler/messagingconsumer/strategy/session/impl/SaveSessionStrategy.java:19-35 | the store becomes `Saved` and one id is used |
| SessionStrategies.DeleteSessionStrategy.Execute | messaging-consumer/src/main/java/com/github/melihemreguler/messagingconsumer/strategy/session/impl/DeleteSessionStrategy.java:18-29 | the store becomes `DeletedByHash`, selected by hash only |
| SessionStrategies.ExpireSessionStrategy.Execute | messaging-consumer/src/main/java/com/github/melihemreguler/messagingconsumer/strategy/session/impl/ExpireSessionStrategy.java:18-29 | the store becomes `DeletedByHash`; the expiry is not re-checked |
| SessionConsumer.SessionFailure | messaging-consumer/src/main/java/com/github/melihemreguler/messagingconsumer/service/SessionConsumerService.java:46-112 | no failure exactly when the payload decodes, its command is one of the five and the store does not throw; a command outside the enum is UnknownSessionCommandException |
| SessionConsumer.ExpireIsDelete | messaging-consumer/src/main/java/com/github/melihemreguler/messagingconsumer/strategy/session/impl/ExpireSessionStrategy.java:21-28 | expire has the effect of delete |
| SessionConsumer.SessionConsumerService.Run | messaging-consumer/src/main/java/com/github/melihemreguler/messagingconsumer/service/SessionConsumerService.java:105-108 | the strategy bean runs its command once on the store |
| SessionConsumer.SessionConsumerService.Handle | messaging-consumer/src/main/java/com/github/melihemreguler/messagingconsumer/service/SessionConsumerService.java:37-93 | both listeners: outcome and published records are `Delivery`'s; on success the store is the command's result, otherwise unchanged |
| SessionConsumer.CommandOf | messaging-consumer/src/main/java/com/github/melihemreguler/messagingconsumer/strategy/session/SessionCommandStrategyFactory.java:31-37 | the command a strategy bean is registered for |
| SessionConsumer.StrategyOfCommand | messaging-consumer/src/main/java/com/github/melihemreguler/messagingconsumer/strategy/session/SessionCommandStrategyFactory.java:31-37 | the bean looked up for a command runs that command, so the no-strategy branch is never reached |
| ActivityLog.ActivityLogDto.constructor | messaging-command-service/src/main/java/com/github/melihemreguler/turknetmessagingservice/dto/ActivityLogDto.java:47-49 | a new log for the user id is empty |
| ActivityLog.ActivityLogDto.AddActivity | messaging-command-service/src/main/java/com/github/melihemreguler/turknetmessagingservice/dto/ActivityLogDto.java:58-63 | a null list becomes empty; exactly one entry is appended and earlier entries are unchanged |
| ActivityLog.ActivityLogDto.AddLoginActivity | messaging-command-service/src/main/java/com/github/melihemreguler/turknetmessagingservice/dto/ActivityLogDto.java:51-56 | as above, with action "LOGIN_ATTEMPT" |
| ActivityLog.ActivityLogRepository.FindByUserId | messaging-consumer/src/main/java/com/github/melihemreguler/messagingconsumer/strategy/user/impl/UnifiedUserActivityStrategy.java:29 | a document exactly when one is stored for the user id, with its stored entries |
| ActivityLog.ActivityLogRepository.Save | messaging-consumer/src/main/java/com/github/melihemreguler/messagingconsumer/strategy/user/impl/UnifiedUserActivityStrategy.java:50 | the user's document is replaced and the others are kept |
| UserActivityStrategy.DetermineAction | messaging-consumer/src/main/java/com/github/melihemreguler/messagingconsumer/strategy/user/impl/UnifiedUserActivityStrategy.java:61-69 | creation and login attempts get an action whose value is the command, and a login gets LOGIN_SUCCESS exactly when it succeeded; anything else is "Unknown activity type: " + command |
| UserActivityStrategy.AcceptedCommandsHaveAnAction | messaging-consumer/src/main/java/com/github/melihemreguler/messagingconsumer/service/UserActivityConsumerService.java:49-53 | every command the consumer accepts has an action |
| UserActivityStrategy.LoggingAppendsOne | messaging-consumer/src/main/java/com/github/melihemreguler/messagingconsumer/strategy/user/impl/UnifiedUserActivityStrategy.java:29-50 | the user's log (created empty if missing) gains exactly one entry at the end; other users' logs are unchanged |
| UserActivityStrategy.UnifiedUserActivityStrategy.Execute | messaging-consumer/src/main/java/com/github/melihemreguler/messagingconsumer/strategy/user/impl/UnifiedUserActivityStrategy.java:22-59 | an unknown kind is "Failed to process user activity" with nothing saved; otherwise the log is saved once with the entry appended |
| UserActivityConsumer.ActivityFailure | messaging-consumer/src/main/java/com/github/melihemreguler/messagingconsumer/service/UserActivityConsumerService.java:46-67 | no failure exactly when the payload decodes, its command is known and the store does not throw; an unknown command is the IllegalArgumentException path |
| UserActivityConsumer.UserActivityConsumerService.Handle | messaging-consumer/src/main/java/com/github/melihemreguler/messagingconsumer/service/UserActivityConsumerService.java:40-99 | both listeners: outcome and records are `Delivery`'s; on success the log gets the entry, otherwise it is unchanged |
| MessageStore.MessageOf | messaging-consumer/src/main/java/com/github/melihemreguler/messagingconsumer/service/MessageConsumerService.java:50-58 | thread, sender, content and timestamp come from the event; the status is "sent" |
| MessageStore.InThread | messaging-command-service/src/main/java/com/github/melihemreguler/turknetmessagingservice/repository/MessageRepository.java:14-16 | the messages of the thread, no others, kept in store order: appending a message appends it to its own thread only (`InThreadAppend`) |
| MessageStore.InThreadAppend | messaging-consumer/src/main/java/com/github/melihemreguler/messagingconsumer/service/MessageConsumerService.java:60 | a message appended to the store is the last of its own thread, and other threads are unchanged |
| MessageStore.OrderedThreadMembers | messaging-command-service/src/main/java/com/github/melihemreguler/turknetmessagingservice/service/MessageService.java:75 | ordering a thread keeps exactly the thread's messages |
| MessageStore.InsertByTimestamp | messaging-command-service/src/main/java/com/github/melihemreguler/turknetmessagingservice/repository/MessageRepository.java:14 | inserting keeps every message and adds one |
| MessageStore.InsertKeepsSorted | messaging-command-service/src/main/java/com/github/melihemreguler/turknetmessagingservice/repository/MessageRepository.java:14 | inserting into a list sorted by timestamp keeps it sorted |
| MessageStore.SortByTimestamp | messaging-command-service/src/main/java/com/github/melihemreguler/turknetmessagingservice/repository/MessageRepository.java:14 | a permutation of the input |
| MessageStore.SortByTimestampSorts | messaging-command-service/src/main/java/com/github/melihemreguler/turknetmessagingservice/repository/MessageRepository.java:14 | the result is sorted by timestamp and holds exactly the input's messages |
| MessageStore.Page | messaging-command-service/src/main/java/com/github/melihemreguler/turknetmessagingservice/repository/MessageRepository.java:14 | the k-th message is message page*size + k; the page holds `size` messages when that many remain from page*size, the rest when fewer do, and none past the end |
| MessageStore.MessageRepository.Save | messaging-consumer/src/main/java/com/github/melihemreguler/messagingconsumer/service/MessageConsumerService.java:60 | the message is appended |
| MessageStore.MessageRepository.FindByThread | messaging-command-service/src/main/java/com/github/melihemreguler/turknetmessagingservice/service/MessageService.java:75 | the thread's messages, each exactly once, sorted by timestamp |
| MessageStore.MessageRepository.FindPageByThread | messaging-command-service/src/main/java/com/github/melihemreguler/turknetmessagingservice/service/MessageService.java:110 | at most `size` messages, sorted by timestamp, all from the thread |
| MessageStore.MessageRepository.CountByThread | messaging-command-service/src/main/java/com/github/melihemreguler/turknetmessagingservice/service/MessageService.java:113 | the length of the ordered thread, at most the number of stored messages |
| MessageConsumer.MessageRetry | messaging-consumer/src/main/java/com/github/melihemreguler/messagingconsumer/service/MessageConsumerService.java:65-82 | below the limit one copy with the count header set to attempt + 1 (the corrected behaviour); at the limit nothing is sent and nothing is thrown |
| MessageConsumer.MessageDelivery | messaging-consumer/src/main/java/com/github/melihemreguler/messagingconsumer/service/MessageConsumerService.java:30-48 | SEND_MESSAGE with a working store is processed; another command is only logged; the exception never escapes; records are only published on a retry (corrected retry) |
| MessageConsumer.MessageConsumerService.HandleRetry | messaging-consumer/src/main/java/com/github/melihemreguler/messagingconsumer/service/MessageConsumerService.java:65-82 | the broker gets exactly `MessageRetry`'s records |
| MessageConsumer.MessageConsumerService.Handle | messaging-consumer/src/main/java/com/github/melihemreguler/messagingconsumer/service/MessageConsumerService.java:30-63 | outcome and records are `MessageDelivery`'s; exactly one message is saved on success and none otherwise (corrected retry) |
| MessageConsumer.FailuresAtTheLimitAreDropped | messaging-consumer/src/main/java/com/github/melihemreguler/messagingconsumer/service/MessageConsumerService.java:77-81 | a failure at or beyond the limit is logged and dropped: no record, no exception |
| HistoryRequests.NewHistoryRequest | messaging-command-service/src/main/java/com/github/melihemreguler/turknetmessagingservice/model/api/HistoryRequest.java:21-40 | ids are trimmed, the user name trimmed and lowercased, nulls kept; a null limit is 50 and a null offset 0 |
| HistoryRequests.User2PrimaryId | messaging-command-service/src/main/java/com/github/melihemreguler/turknetmessagingservice/model/api/HistoryRequest.java:58-60 | the non-blank user2Id if there is one, otherwise the user name |
| HistoryRequests.NormalisationIsIdempotent | messaging-command-service/src/main/java/com/github/melihemreguler/turknetmessagingservice/model/api/HistoryRequest.java:22-32 | normalising a normalised request changes nothing |
| HistoryRequests.IsUser1Valid | messaging-command-service/src/main/java/com/github/melihemreguler/turknetmessagingservice/model/api/HistoryRequest.java:42-45 | user1Id is present and holds a character above U+0020 |
| HistoryRequests.IsUser2Valid | messaging-command-service/src/main/java/com/github/melihemreguler/turknetmessagingservice/model/api/HistoryRequest.java:47-51 | user2Id or user2Username is present and holds a character above U+0020 |
| HistoryRequests.IsUser2ByUserId | messaging-command-service/src/main/java/com/github/melihemreguler/turknetmessagingservice/model/api/HistoryRequest.java:66-68 | user2Id is present and not blank; such a request also passes the user-2 check |
| HistoryRequests.User1PrimaryId | messaging-command-service/src/main/java/com/github/melihemreguler/turknetmessagingservice/model/api/HistoryRequest.java:54-56 | the first participant is always named by user1Id |
| HistoryRequests.ValidRequestHasPrimaryIds | messaging-command-service/src/main/java/com/github/melihemreguler/turknetmessagingservice/model/api/HistoryRequest.java:42-60 | a request that passes both checks names each participant by a non-blank value |
| HistoryRequests.PresenceSurvivesNormalisation | messaging-command-service/src/main/java/com/github/melihemreguler/turknetmessagingservice/model/api/HistoryRequest.java:22-31 | trimming, and trimming with lower-casing, keep a value non-blank exactly when it was |
| HistoryRequests.ValidityIsDecidedByRawFields | messaging-command-service/src/main/java/com/github/melihemreguler/turknetmessagingservice/model/api/HistoryRequest.java:21-68 | the checks on the constructed request agree with the same checks on the fields as given |
| UserStore.UserRepository.FindByUsername | messaging-command-service/src/main/java/com/github/melihemreguler/turknetmessagingservice/repository/UserRepository.java:12 | a stored user with that name, or none exactly when no user has it |
| UserStore.UserRepository.ExistsByUsername | messaging-command-service/src/main/java/com/github/melihemreguler/turknetmessagingservice/repository/UserRepository.java:14 | an account with that name exists exactly when `findByUsername` finds one |
| UserStore.UserRepository.FindById | messaging-command-service/src/main/java/com/github/melihemreguler/turknetmessagingservice/service/MessageService.java:140-141 | a stored user with that id, or none exactly when no user has it |
| UserStore.UserRepository.Save | messaging-command-service/src/main/java/com/github/melihemreguler/turknetmessagingservice/service/UserService.java:39 | the user is appended with the next id; user names stay unique |
| UserService.ValidateUserCredentials | messaging-command-service/src/main/java/com/github/melihemreguler/turknetmessagingservice/service/UserService.java:77-93 | success exactly when the user exists and the password matches; "User not found" with a null user id, "Invalid password" keeping the id, and no reason on success |
| UserService.ActivityEventsAreLogged | messaging-command-service/src/main/java/com/github/melihemreguler/turknetmessagingservice/service/UserService.java:42-72 | the creation and login events carry commands the consumer accepts and the actions it derives |
| UserService.UserService.RegisterUser | messaging-command-service/src/main/java/com/github/melihemreguler/turknetmessagingservice/service/UserService.java:28-53 | an existing name is ConflictException with nothing saved or published; otherwise the user is saved and exactly one creation event is published, keyed by the new id |
| UserService.UserService.AuthenticateUser | messaging-command-service/src/main/java/com/github/melihemreguler/turknetmessagingservice/service/UserService.java:55-75 | a session is created only on success; exactly one login event is published, keyed by the user id or "unknown"; the result carries the token only on success |
| SessionService.CreateOrUpdate | messaging-command-service/src/main/java/com/github/melihemreguler/turknetmessagingservice/service/SessionService.java:40-41 | the event is an UPSERT_SESSION command |
| SessionService.FirstUsable | messaging-command-service/src/main/java/com/github/melihemreguler/turknetmessagingservice/service/SessionService.java:55-58 | a candidate that is live and whose hash matches, and none exactly when no candidate is |
| SessionService.FirstUsableIsFirst | messaging-command-service/src/main/java/com/github/melihemreguler/turknetmessagingservice/service/SessionService.java:55-58 | it is the first such candidate in store order |
| SessionService.ValidateSession | messaging-command-service/src/main/java/com/github/melihemreguler/turknetmessagingservice/service/SessionService.java:49-64 | empty for a null or empty token and on any store error; otherwise a live stored session whose hash matches, empty only when none does |
| SessionService.ValidateUserSession | messaging-command-service/src/main/java/com/github/melihemreguler/turknetmessagingservice/service/SessionService.java:66-81 | the same, restricted to the user's sessions |
| SessionService.ScopedAgreesWithUnscoped | messaging-command-service/src/main/java/com/github/melihemreguler/turknetmessagingservice/service/SessionService.java:49-81 | when the unscoped check finds a session of user u, the check scoped to u finds the same one |
| SessionService.CreatedSessionValidates | messaging-command-service/src/main/java/com/github/melihemreguler/turknetmessagingservice/service/SessionService.java:35-81 | once the upsert for a new token is applied, that token validates for that user until it expires; this relies on both services sharing the one hash field `hashedToken` |
| SessionService.ExpiredSessions | messaging-command-service/src/main/java/com/github/melihemreguler/turknetmessagingservice/service/SessionService.java:94-96 | exactly the stored sessions that are expired |
| SessionStore.IsExpired | messaging-command-service/src/main/java/com/github/melihemreguler/turknetmessagingservice/dto/SessionDto.java:44-46 | a session is expired when the current time is strictly after its expiry |
| SessionService.LiveSessions | messaging-command-service/src/main/java/com/github/melihemreguler/turknetmessagingservice/dto/SessionDto.java:44-46 | exactly the stored sessions that are not expired |
| SessionService.DeletingExpiredLeavesLive | messaging-command-service/src/main/java/com/github/melihemreguler/turknetmessagingservice/service/SessionService.java:92-101 | deleting the expired sessions leaves exactly the live ones, in order |
| SessionService.SessionService.CreateSession | messaging-command-service/src/main/java/com/github/melihemreguler/turknetmessagingservice/service/SessionService.java:35-47 | returns the plain token and publishes exactly one UPSERT_SESSION record holding its hash, keyed by the user id, expiring expirationHours later |
| SessionService.SessionService.InvalidateSession | messaging-command-service/src/main/java/com/github/melihemreguler/turknetmessagingservice/service/SessionService.java:83-90 | exactly the validated session is deleted; nothing changes when none is found |
| SessionService.SessionService.CleanupExpiredSessions | messaging-command-service/src/main/java/com/github/melihemreguler/turknetmessagingservice/service/SessionService.java:92-105 | the store keeps exactly the live sessions; a store error is SessionCleanupException with the store unchanged |
| MessageService.CreateThreadId | messaging-command-service/src/main/java/com/github/melihemreguler/turknetmessagingservice/service/MessageService.java:173-179 | the id that does not compare greater by `compareTo` over UTF-16 code units, "-", then the other |
| MessageService.ThreadIdOrdersByCodeUnit | messaging-command-service/src/main/java/com/github/melihemreguler/turknetmessagingservice/service/MessageService.java:173-179 | ids are ordered by UTF-16 code unit: U+1F600 comes before U+FFFF in the thread id |
| MessageService.ThreadIdSymmetric | messaging-command-service/src/main/java/com/github/melihemreguler/turknetmessagingservice/service/MessageService.java:173-179 | the thread id of (a, b) equals that of (b, a) |
| MessageService.JavaDiv | messaging-command-service/src/main/java/com/github/melihemreguler/turknetmessagingservice/service/MessageService.java:107 | Java's truncating `int` division, which agrees with floor division on non-negative operands |
| MessageService.SendCommand | messaging-command-service/src/main/java/com/github/melihemreguler/turknetmessagingservice/service/MessageService.java:50-55 | a SEND_MESSAGE command that the consumer stores as exactly the message sent |
| MessageService.PageContainsOffset | messaging-command-service/src/main/java/com/github/melihemreguler/turknetmessagingservice/service/MessageService.java:107-110 | the page computed from offset and limit contains the message at the offset |
| MessageService.PageOfThread | messaging-command-service/src/main/java/com/github/melihemreguler/turknetmessagingservice/service/MessageService.java:104-126 | limit 0 is ArithmeticException; a negative page or size is the PageRequest error; otherwise ThreadNotFoundException exactly when the thread is empty, else exactly page offset / limit of size limit of the thread sorted oldest first, with the total count |
| MessageService.PageOfThreadHoldsTheOffset | messaging-command-service/src/main/java/com/github/melihemreguler/turknetmessagingservice/service/MessageService.java:104-126 | the page returned is sorted, lies in the thread, and holds the message at the requested offset |
| MessageService.MessageService.ResolveUserId | messaging-command-service/src/main/java/com/github/melihemreguler/turknetmessagingservice/service/MessageService.java:137-153 | an id is returned unchanged when the user exists, a name is looked up; a missing user is UserNotFoundException naming the identifier; a null id is IllegalArgumentException |
| MessageService.MessageService.ResolveBoth | messaging-command-service/src/main/java/com/github/melihemreguler/turknetmessagingservice/service/MessageService.java:88-92 | both users resolved, or the first failure |
| MessageService.MessageService.ConversationOf | messaging-command-service/src/main/java/com/github/melihemreguler/turknetmessagingservice/service/MessageService.java:64-84 | unknown users are UserNotFoundException; an empty thread is ThreadNotFoundException; otherwise the thread's messages, sorted |
| MessageService.MessageService.Conversation | messaging-command-service/src/main/java/com/github/melihemreguler/turknetmessagingservice/service/MessageService.java:86-95 | the conversation between the two resolved users |
| MessageService.MessageService.ConversationPaginated | messaging-command-service/src/main/java/com/github/melihemreguler/turknetmessagingservice/service/MessageService.java:97-127 | the paginated conversation between the two resolved users |
| MessageService.MessageService.SecurityInfo | messaging-command-service/src/main/java/com/github/melihemreguler/turknetmessagingservice/service/MessageService.java:129-135 | the two resolved ids |
| MessageService.MessageService.SendMessage | messaging-command-service/src/main/java/com/github/melihemreguler/turknetmessagingservice/service/MessageService.java:31-62 | an unknown sender or recipient fails before anything is published; otherwise exactly one command, keyed by the sender, on the message topic with the sorted thread id; a publish fault leaves the broker unchanged |
| MessageStore.PageIsSortedPart | messaging-command-service/src/main/java/com/github/melihemreguler/turknetmessagingservice/service/MessageService.java:108-110 | a page of the sorted thread is sorted and lies in the thread |
| MessageService.CurrentUserIsPartOfConversation | messaging-command-service/src/main/java/com/github/melihemreguler/turknetmessagingservice/service/MessageService.java:156-171 | the user a request was resolved for is part of its conversation |
| MessageService.ConversationSecurityInfo.IsUserPartOfConversation | messaging-command-service/src/main/java/com/github/melihemreguler/turknetmessagingservice/service/MessageService.java:165-167 | the user is one of the two participants |
| MessageService.SentMessageIsStoredAndListed | messaging-command-service/src/main/java/com/github/melihemreguler/turknetmessagingservice/service/MessageService.java:31-62 | a sent message is stored by the consumer and listed in the conversation from either side |
| MessageService.ConversationIsDirectionIndependent | messaging-command-service/src/main/java/com/github/melihemreguler/turknetmessagingservice/service/MessageService.java:64-84 | the conversation of (a, b) equals that of (b, a) |
| SessionInterceptor.PublicPrefixesAreOpen | messaging-command-service/src/main/java/com/github/melihemreguler/turknetmessagingservice/interceptor/SessionInterceptor.java:103-106 | a URI under any public prefix is public |
| SessionInterceptor.IsPublicEndpoint | messaging-command-service/src/main/java/com/github/melihemreguler/turknetmessagingservice/interceptor/SessionInterceptor.java:103-106 | a URI is public when it starts with one of the public prefixes |
| SessionInterceptor.ApiDataIsProtected | messaging-command-service/src/main/java/com/github/melihemreguler/turknetmessagingservice/interceptor/SessionInterceptor.java:27-35 | message and activity URIs are not public |
| SessionInterceptor.HttpExchange.Reject | messaging-command-service/src/main/java/com/github/melihemreguler/turknetmessagingservice/interceptor/SessionInterceptor.java:77-83 | status 401, JSON content type, body `{"error": "..."}` |
| SessionInterceptor.SessionInterceptor.PreHandle | messaging-command-service/src/main/java/com/github/melihemreguler/turknetmessagingservice/interceptor/SessionInterceptor.java:38-72 | proceeds exactly when the URI is public or both headers have text and the scoped check finds a session; "Session ID required", "User ID required", "Invalid or expired session" in that order; on success the user attribute and both headers are set |
| AuthController.FirstField | messaging-command-service/src/main/java/com/github/melihemreguler/turknetmessagingservice/controller/AuthController.java:122 | the text before the first comma |
| AuthController.ClientIpAddress | messaging-command-service/src/main/java/com/github/melihemreguler/turknetmessagingservice/controller/AuthController.java:119-131 | the first trimmed X-Forwarded-For field, else X-Real-IP verbatim, else the remote address; a value made only of commas is ArrayIndexOutOfBoundsException |
| AuthController.ForwardedClientComesFirst | messaging-command-service/src/main/java/com/github/melihemreguler/turknetmessagingservice/controller/AuthController.java:120-123 | a forwarded-for list starting with a client address yields that address |
| AuthController.SessionTokenOf | messaging-command-service/src/main/java/com/github/melihemreguler/turknetmessagingservice/controller/AuthController.java:102 | the optional X-Session-Token header: absent exactly when the request lacks it, otherwise its value |
| AuthController.AuthController.LogoutUser | messaging-command-service/src/main/java/com/github/melihemreguler/turknetmessagingservice/controller/AuthController.java:101-117 | a null or blank token is 400 with no invalidation; otherwise 200 "Logout successful" and the validated session is deleted |
| RestApiClient.GetErrorCode | graphql-middleware/src/restApiClient.js:224-243 | a known code exactly for 400, 401, 403, 404, 409, 422 and 500; UNKNOWN_ERROR for any other status |
| RestApiClient.ErrorCodesAreDistinct | graphql-middleware/src/restApiClient.js:224-243 | distinct known statuses get distinct codes |
| RestApiClient.HandleError | graphql-middleware/src/restApiClient.js:200-222 | the status is the response's when present and non-zero, else 500, and the code is derived from it; the message is the response's, else the error's, else "Unknown error"; the details are the response body, or an empty object when there is no response or no body |
| RestApiClient.NoResponseIsInternalError | graphql-middleware/src/restApiClient.js:200-243 | an error without a response is INTERNAL_SERVER_ERROR with status 500 |
| RestApiClient.ServerStatusIsKept | graphql-middleware/src/restApiClient.js:200-222 | a response's status and code are passed through |
| RestApiClient.SanitizeHeaders | graphql-middleware/src/restApiClient.js:61-66 | exactly X-Session-Id and Authorization are removed; other values are kept; the input is not changed |
| RestApiClient.SanitizeIdempotent | graphql-middleware/src/restApiClient.js:61-66 | sanitising twice equals sanitising once |
| RestApiClient.IssuedTokenIsNotRedacted | graphql-middleware/src/restApiClient.js:61-66 | an X-Session-Token header survives sanitising |
| RestApiClient.LogoutHeaders | graphql-middleware/src/restApiClient.js:97-108 | the logout request carries the session in X-Session-Id |
| RestApiClient.ClientLogoutCarriesNoToken | graphql-middleware/src/restApiClient.js:101 | such a request has no X-Session-Token, so the token the controller binds from it is absent (the case `AuthController.LogoutUser` answers with 400) |

## Left out

- Kafka, MongoDB and Spring wiring are abstract state: listener annotations, topic setup, configuration and health endpoints.
- `KafkaProducer.KafkaProducerService.Send`: only a synchronous exception from `send` is an error. The returned future is discarded, so an asynchronous delivery failure goes unnoticed in the source: the method returns normally and no record arrives. The model's successful send always appends the record; a lost delivery is not modelled.
- `Retry.Escalate`: the consumers send the retry copy asynchronously, and a failed send is only logged in the `exceptionally` callback, so the copy is lost. The model always delivers the copy; the same holds for `MessageConsumer.MessageRetry`.
- `Decimal.IsDigit`: the table of decimal-digit runs is that of Unicode 15.0; older Java releases know fewer runs.
- The scheduled cleanup and its scheduler are left out, as are concurrent deliveries and races between consumers.
- Logging is left out; log lines have no effect in the model.
- Store failures are all-or-nothing (`storeFails`). A failure part-way through a strategy is not modelled.
- Password hashing and token generation are parameters (`PasswordEncoder`, `token`). UUID randomness is not modelled.
- The JSON codec is abstracted: a payload is a decoded event or `Malformed`. Serialisation of the five-field message command is not checked.
- `Common.ToLowerAscii`: lowercases ASCII letters only, not all of Unicode as `String.toLowerCase` does.
- `Common.TrimLower`: inherits the ASCII-only lowercasing of `Common.ToLowerAscii`, so a non-ASCII capital in a username is kept as it is.
- `HistoryRequests.NewHistoryRequest`: the normalised username is lowercased for ASCII letters only, as in `Common.TrimLower`.
- `SessionConsumer.SessionConsumerService.Handle`: the "No strategy found" branch is not reachable, because the factory registers every command (`SessionConsumer.StrategyOfCommand`).
- `SessionService.SessionService.CleanupExpiredSessions`: `deleteAll` is not called when nothing is expired. This is unobservable in the model, since deleting nothing changes no state.
- `StrategyFactories.SessionStrategyMapBuilder.Build`: the defensive copy is implicit, because maps are values.
- `SessionStore.SessionRepository.Insert`: the unique index on the session hash is not enforced.
- `MessageStore.SortByTimestamp`: messages with equal timestamps keep store order. MongoDB does not specify the order of ties.
- `MessageService.MessageService.SendMessage`: one `now` is used for both the event and the returned message; the source reads the clock twice.
- Fields that `@Valid` refuses as null before the services run are not modelled.
- HTTP header names are compared exactly; servlet lookups ignore case.
- The email of a registration request is dropped.
- `SessionTokenInterceptor` is not part of this model; it repeats the interceptor decision with the unscoped check.
- The small trim-and-lowercase request records other than `HistoryRequest` are left out (`MessageRequest`, `UserRegisterRequest`, `LoginRequest`, `ActivityLogsRequest`). The services receive their already-normalised values, except `TrimLower` on user names.
- Controllers other than the logout guard and the address extraction are left out.
- The GraphQL server, schema and resolvers are left out.
- Consumer-side exception handlers and the exception classes are represented by error values only.

## Findings

| source | as written | input that shows it | evidently intended | confidence | as-written member | corrected member |
|---|---|---|---|---|---|---|
| messaging-consumer/src/main/java/com/github/melihemreguler/messagingconsumer/service/MessageConsumerService.java:70-71 | the retry copy is sent without the `x-retryCount` header, though the comment says the count is incremented | any failing SEND_MESSAGE at attempt 0 < maxRetry: the copy carries no header, so any consumer of the retry topic would read it as attempt 0 and the count would never reach maxRetry | send the copy with header attempt + 1, as the other two consumers do | high; not executed | Retry.MessageRetryRecordAsWritten, Retry.AsWrittenRetryRestartsAtZero | MessageConsumer.MessageRetry, MessageConsumer.MessageConsumerService.HandleRetry |
